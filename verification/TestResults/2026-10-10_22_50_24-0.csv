TestResult.DisplayName,TestResult.Outcome,TestResult.Duration,TestResult.ResourceCount,RandomSeed
Text.Strip (well-formedness),Passed,00:00:00.2439149,954506,5
Text.StripRight (well-formedness),Passed,00:00:00.1442789,71373,5
Text.StripLeft (well-formedness),Passed,00:00:00.1442573,79334,5
Text.StripCore (well-formedness),Passed,00:00:00.0638795,20423,5
Text.StripLeftAllSpace (correctness),Passed,00:00:00.0270869,25040,5
Text.StripRightSpaces (correctness),Passed,00:00:00.0260241,32056,5
Text.StripCore (correctness),Passed,00:00:00.0256171,43551,5
Text.StripRightSpaces (well-formedness),Passed,00:00:00.0238806,15276,5
Text.StripLeftSpaces (correctness),Passed,00:00:00.0235478,34859,5
Text.StripLeftSpaces (well-formedness),Passed,00:00:00.0175267,16039,5
