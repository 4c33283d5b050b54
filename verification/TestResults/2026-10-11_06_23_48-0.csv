TestResult.DisplayName,TestResult.Outcome,TestResult.Duration,TestResult.ResourceCount,RandomSeed
LegacyHistoryModal.AgreesFromTwoPoints (correctness),Passed,00:00:00.2171382,133790,1
LegacyHistoryModal.AgreesFromTwoPoints (well-formedness),Passed,00:00:00.1689387,71782,1
