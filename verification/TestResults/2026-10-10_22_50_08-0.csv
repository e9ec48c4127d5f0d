TestResult.DisplayName,TestResult.Outcome,TestResult.Duration,TestResult.ResourceCount,RandomSeed
Text.Strip (well-formedness),Passed,00:00:00.6509859,2588022,0
Text.StripLeft (well-formedness),Passed,00:00:00.1887393,83180,0
Text.StripRight (well-formedness),Passed,00:00:00.1870520,70856,0
Text.StripCore (correctness),Passed,00:00:00.0274917,43686,0
Text.StripLeftSpaces (correctness),Passed,00:00:00.0223010,34917,0
Text.StripLeftAllSpace (correctness),Passed,00:00:00.0205095,25168,0
Text.StripRightSpaces (correctness),Passed,00:00:00.0203645,32191,0
Text.StripRightSpaces (well-formedness),Passed,00:00:00.0168838,15277,0
Text.StripCore (well-formedness),Passed,00:00:00.0167170,20433,0
Text.StripLeftSpaces (well-formedness),Passed,00:00:00.0145553,16073,0
