TestResult.DisplayName,TestResult.Outcome,TestResult.Duration,TestResult.ResourceCount,RandomSeed
Text.Trim (well-formedness),Passed,00:00:00.5722385,4183496,1
AddEmployeeModal.TrimLowerKeepsMatchAt (correctness),Passed,00:00:00.1155525,88922,1
AddEmployeeModal.TrimLowerKeepsMatch (correctness),Passed,00:00:00.0991890,79201,1
Text.TrimIdempotent (correctness),Passed,00:00:00.0456837,164972,1
Text.TrimStart (well-formedness),Passed,00:00:00.0412266,75609,1
Text.TrimmedInfix (correctness),Passed,00:00:00.0360918,34764,1
Text.TrimEnd (well-formedness),Passed,00:00:00.0301832,64938,1
Text.TrimOfTrimmed (correctness),Passed,00:00:00.0221045,35019,1
Text.TrimmedInfix (well-formedness),Passed,00:00:00.0187891,27964,1
Text.TrimOfTrimmed (well-formedness),Passed,00:00:00.0143002,22351,1
