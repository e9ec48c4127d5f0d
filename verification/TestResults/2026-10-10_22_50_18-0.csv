TestResult.DisplayName,TestResult.Outcome,TestResult.Duration,TestResult.ResourceCount,RandomSeed
Text.Strip (well-formedness),Passed,00:00:00.2893177,1054978,3
Text.StripLeft (well-formedness),Passed,00:00:00.1560647,93470,3
Text.StripRight (well-formedness),Passed,00:00:00.1453018,72176,3
Text.StripRightSpaces (well-formedness),Passed,00:00:00.0328438,15276,3
Text.StripRightSpaces (correctness),Passed,00:00:00.0314523,32170,3
Text.StripCore (correctness),Passed,00:00:00.0311363,42392,3
Text.StripLeftAllSpace (correctness),Passed,00:00:00.0300747,25150,3
Text.StripLeftSpaces (correctness),Passed,00:00:00.0249023,34763,3
Text.StripCore (well-formedness),Passed,00:00:00.0244746,20438,3
Text.StripLeftSpaces (well-formedness),Passed,00:00:00.0182724,16039,3
