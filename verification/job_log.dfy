/**
 * The background job queues (`rating-writes` and `rating-stats`) as a log of
 * the jobs added to them, and the queue service that fills in option
 * defaults.
 */
module JobLog {
  import opened Wrappers

  datatype Queue = RatingWrites | RatingStats

  /** What a job carries. */
  datatype Payload =
    | RatingRef(ratingId: string)
    | StatsUpdate(movieId: string, rating: int)
    | MovieBatch(movieIds: seq<string>)

  /** A job as added: options left unset are None. Every job here uses exponential backoff. */
  datatype Job = Job(
    queue: Queue,
    name: string,
    payload: Payload,
    delay: Option<real>,
    attempts: Option<int>,
    priority: Option<int>,
    removeOnComplete: Option<int>,
    removeOnFail: Option<int>,
    backoffDelay: int)

  /** The options a caller passes to `addJobWithOptions`. */
  datatype JobOptions = JobOptions(
    delay: Option<real>,
    attempts: Option<int>,
    priority: Option<int>,
    removeOnComplete: Option<int>,
    removeOnFail: Option<int>)

  datatype QueueError = UnknownQueue(name: string) | QueueUnavailable

  const BackoffDelayMs: int := 2000

  /** `option || fallback`: undefined and 0 both take the fallback. */
  function OrElse(v: Option<int>, fallback: int): (r: int)
    ensures v.Some? && v.value != 0 ==> r == v.value
    ensures v.None? || v.value == 0 ==> r == fallback
  {
    if v.Some? && v.value != 0 then v.value else fallback
  }

  /** `getQueue`: the two known queue names; any other name throws. */
  function QueueNamed(name: string): (r: Result<Queue, QueueError>)
    ensures r.Success? <==> name == "rating-writes" || name == "rating-stats"
    ensures name == "rating-writes" ==> r == Success(RatingWrites)
    ensures name == "rating-stats" ==> r == Success(RatingStats)
  {
    if name == "rating-writes" then Success(RatingWrites)
    else if name == "rating-stats" then Success(RatingStats)
    else Failure(UnknownQueue(name))
  }

  /**
   * `addJobWithOptions`: appends one job with attempts defaulting to 3,
   * priority to 0, removeOnComplete to 100 and removeOnFail to 50; `up`
   * says whether the queue accepted the job.
   */
  function AddJobWithOptions(log: seq<Job>, queueName: string, name: string, payload: Payload, opts: JobOptions, up: bool)
    : (r: Result<seq<Job>, QueueError>)
    ensures r.Success? <==> QueueNamed(queueName).Success? && up
    ensures r.Success? ==> |r.value| == |log| + 1 && r.value[..|log|] == log
    ensures r.Success? ==>
      var j := r.value[|log|];
      && j.queue == QueueNamed(queueName).value && j.name == name && j.payload == payload
      && j.delay == opts.delay
      && j.attempts == Some(OrElse(opts.attempts, 3))
      && j.priority == Some(OrElse(opts.priority, 0))
      && j.removeOnComplete == Some(OrElse(opts.removeOnComplete, 100))
      && j.removeOnFail == Some(OrElse(opts.removeOnFail, 50))
      && j.backoffDelay == BackoffDelayMs
  {
    var q :- QueueNamed(queueName);
    if !up then Failure(QueueUnavailable)
    else
      Success(log + [Job(q, name, payload, opts.delay,
                         Some(OrElse(opts.attempts, 3)),
                         Some(OrElse(opts.priority, 0)),
                         Some(OrElse(opts.removeOnComplete, 100)),
                         Some(OrElse(opts.removeOnFail, 50)),
                         BackoffDelayMs)])
  }

  /** An explicit `attempts: 0` is replaced by the default 3, like an absent one. */
  lemma ZeroAttemptsTakeDefault(log: seq<Job>, payload: Payload, opts: JobOptions)
    requires opts.attempts == Some(0)
    ensures var r := AddJobWithOptions(log, "rating-stats", "update-stats", payload, opts, true);
      r.Success? && r.value[|log|].attempts == Some(3)
  {
  }
}
