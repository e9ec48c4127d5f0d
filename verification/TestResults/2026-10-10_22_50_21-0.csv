TestResult.DisplayName,TestResult.Outcome,TestResult.Duration,TestResult.ResourceCount,RandomSeed
Text.Strip (well-formedness),Passed,00:00:00.1716656,661965,4
Text.StripLeft (well-formedness),Passed,00:00:00.1368925,97339,4
Text.StripRight (well-formedness),Passed,00:00:00.1281003,64789,4
Text.StripRightSpaces (correctness),Passed,00:00:00.0279764,32205,4
Text.StripCore (correctness),Passed,00:00:00.0261942,42208,4
Text.StripLeftSpaces (correctness),Passed,00:00:00.0236967,37195,4
Text.StripLeftAllSpace (correctness),Passed,00:00:00.0208791,25033,4
Text.StripRightSpaces (well-formedness),Passed,00:00:00.0203003,15277,4
Text.StripCore (well-formedness),Passed,00:00:00.0175827,20400,4
Text.StripLeftSpaces (well-formedness),Passed,00:00:00.0165535,16040,4
