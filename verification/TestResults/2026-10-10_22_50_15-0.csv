TestResult.DisplayName,TestResult.Outcome,TestResult.Duration,TestResult.ResourceCount,RandomSeed
Text.Strip (well-formedness),Passed,00:00:00.3462279,1134557,2
Text.StripRight (well-formedness),Passed,00:00:00.1625297,74939,2
Text.StripLeft (well-formedness),Passed,00:00:00.1612588,76674,2
Text.StripCore (correctness),Passed,00:00:00.0383956,43539,2
Text.StripLeftSpaces (correctness),Passed,00:00:00.0368337,34802,2
Text.StripCore (well-formedness),Passed,00:00:00.0350413,20399,2
Text.StripRightSpaces (correctness),Passed,00:00:00.0264972,32076,2
Text.StripLeftSpaces (well-formedness),Passed,00:00:00.0232197,16039,2
Text.StripLeftAllSpace (correctness),Passed,00:00:00.0217351,25177,2
Text.StripRightSpaces (well-formedness),Passed,00:00:00.0187263,15276,2
