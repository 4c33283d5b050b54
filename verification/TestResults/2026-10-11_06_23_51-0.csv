TestResult.DisplayName,TestResult.Outcome,TestResult.Duration,TestResult.ResourceCount,RandomSeed
LegacyHistoryModal.AgreesFromTwoPoints (correctness),Passed,00:00:00.1585612,142716,3
LegacyHistoryModal.AgreesFromTwoPoints (well-formedness),Passed,00:00:00.1353130,71774,3
