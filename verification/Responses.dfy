// The response messages, reduced to the fields the modelled code computes or reads.
module Responses {
  import opened Common

  // ContainerStateTerminatedResponse
  datatype TerminationDetails = TerminationDetails(
    exitCode: int, reason: string, message: string, startedAt: string, finishedAt: string)

  datatype TerminationReason = TerminationReason(containerName: string, details: TerminationDetails)

  datatype PodResponse = PodResponse(
    name: string, phase: string, startTime: string,
    failed: bool, reasons: seq<TerminationReason>, finishedAt: string)

  datatype JobConditionResponse = JobConditionResponse(
    kind: string, status: string, lastTransition: string, reason: string)

  datatype JobResponse = JobResponse(
    name: string, creationTimestamp: string, active: int, completionTime: string, durationInS: int,
    failed: bool, failureCondition: Option<JobConditionResponse>, conditions: seq<JobConditionResponse>,
    pods: seq<PodResponse>, reasons: seq<TerminationReason>)

  datatype CronjobResponse = CronjobResponse(
    name: string, namespace: string, active: bool, failed: bool, lastDuration: int, currentDuration: int,
    jobs: seq<JobResponse>, runningJobs: seq<JobResponse>,
    jobsPods: seq<PodResponse>, runningJobsPods: seq<PodResponse>)
}
