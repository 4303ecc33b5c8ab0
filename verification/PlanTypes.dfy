/** The records of a CapacityPlan's status. Texts that only describe (messages, digests) are left out. */
module PlanTypes {

  import opened Options

  datatype PVCSummary = PVCSummary(
    namespace: string, name: string, capacityBytes: int, usedBytes: int, usageRatio: real,
    growthBytesPerDay: real, daysUntilFull: Option<real>, confidenceR2: real, samplesCount: nat,
    lastSampleTime: Option<int>, llmInsight: string, lastLLMTime: Option<int>, alertFiring: bool)

  /** The trend view of one PVC, before ranking. */
  datatype RiskSignal = RiskSignal(
    namespace: string, name: string, usedBytes: int, capacityBytes: int, usageRatio: real,
    alertFiring: bool, confidenceR2: real, llmInsight: string, weeklyGrowthBytesPerDay: real,
    dailyGrowthBytesPerDay: real, growthAcceleration: real, daysUntilFull: Option<real>,
    projectedFullAt: Option<int>)

  /** The trend view of one of the top risks. */
  datatype RiskSummary = RiskSummary(
    namespace: string, name: string, usedBytes: int, capacityBytes: int, usageRatio: real,
    weeklyGrowthBytesPerDay: real, dailyGrowthBytesPerDay: real, growthAcceleration: real,
    confidenceR2: real, daysUntilFull: Option<real>, projectedFullAt: Option<int>,
    llmInsight: string, alertFiring: bool)

  /** The workload that owns a PVC. */
  datatype WorkloadRef = WorkloadRef(kind: string, name: string, namespace: string)
}
