TestResult.DisplayName,TestResult.Outcome,TestResult.Duration,TestResult.ResourceCount,RandomSeed
Text.Strip (well-formedness),Passed,00:00:00.1687641,570407,1
Text.StripLeft (well-formedness),Passed,00:00:00.1563252,92153,1
Text.StripRight (well-formedness),Passed,00:00:00.1442560,65461,1
Text.StripRightSpaces (correctness),Passed,00:00:00.0351201,32087,1
Text.StripCore (correctness),Passed,00:00:00.0350110,43710,1
Text.StripLeftSpaces (correctness),Passed,00:00:00.0271063,34716,1
Text.StripLeftAllSpace (correctness),Passed,00:00:00.0235670,25046,1
Text.StripCore (well-formedness),Passed,00:00:00.0205051,20431,1
Text.StripRightSpaces (well-formedness),Passed,00:00:00.0180653,15279,1
Text.StripLeftSpaces (well-formedness),Passed,00:00:00.0163611,16041,1
