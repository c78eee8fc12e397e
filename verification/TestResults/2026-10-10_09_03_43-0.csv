TestResult.DisplayName,TestResult.Outcome,TestResult.Duration,TestResult.ResourceCount,RandomSeed
LoadCalendars.GroupByServiceId (correctness),Failed,00:05:00.1520551,715513868,0
LoadCalendars.GroupByServiceId (well-formedness),Passed,00:00:00.1516353,36736,0
