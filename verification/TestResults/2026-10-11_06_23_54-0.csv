TestResult.DisplayName,TestResult.Outcome,TestResult.Duration,TestResult.ResourceCount,RandomSeed
LegacyHistoryModal.AgreesFromTwoPoints (correctness),Passed,00:00:00.2570631,235772,6
LegacyHistoryModal.AgreesFromTwoPoints (well-formedness),Passed,00:00:00.1677017,71769,6
