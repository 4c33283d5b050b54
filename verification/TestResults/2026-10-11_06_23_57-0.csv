TestResult.DisplayName,TestResult.Outcome,TestResult.Duration,TestResult.ResourceCount,RandomSeed
LegacyHistoryModal.AgreesFromTwoPoints (correctness),Failed,00:01:01.1443338,20066150,7
LegacyHistoryModal.AgreesFromTwoPoints (well-formedness),Passed,00:00:00.1161419,71779,7
