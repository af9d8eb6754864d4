// The parts of the Kubernetes objects that the modelled code reads.
module Objects {
  import opened Common
  import opened Rfc3339

  // owners holds the names of the owner references; a nil list is [] once decoded.
  datatype ObjectMeta = ObjectMeta(
    namespace: string,
    name: string,
    resourceVersion: string,
    labels: map<string, string>,
    owners: seq<string>,
    creation: Time)

  datatype Object<+P> = Object(meta: ObjectMeta, payload: P)

  datatype CronJobData = CronJobData(schedule: string, active: nat)

  datatype JobCondition = JobCondition(kind: string, status: string, lastTransition: Time, reason: string)

  datatype JobData = JobData(
    active: int,
    startTime: Option<Time>,
    completionTime: Option<Time>,
    conditions: seq<JobCondition>)

  datatype Waiting = Waiting(reason: string, message: string)

  datatype Terminated = Terminated(exitCode: int, reason: string, message: string, startedAt: Time, finishedAt: Time)

  datatype ContainerStatus = ContainerStatus(name: string, waiting: Option<Waiting>, terminated: Option<Terminated>)

  datatype PodData = PodData(
    phase: string,
    startTime: Option<Time>,
    ephemeral: seq<ContainerStatus>,
    init: seq<ContainerStatus>,
    regular: seq<ContainerStatus>)

  type CronJob = Object<CronJobData>
  type Job = Object<JobData>
  type Pod = Object<PodData>
}
