/**
  The two tables, videos and encoding_jobs, and the transactions on them as
  functions from the state before to the state after. Timestamps and the
  surrogate job_id are not part of this model.
 */
module TableModel {
  import opened Models
  import opened Keys

  /** A videos row: the three columns are the denormalised job statuses. */
  datatype Video = Video(title: string, storageKey: Key, encoding: Status, thumbnail: Status, caption: Status) {
    function Column(t: JobType): Status {
      match t
      case HLS => encoding
      case Thumbnail => thumbnail
      case Caption => caption
    }

    function WithColumn(t: JobType, status: Status): (v: Video)
      ensures v.Column(t) == status
      ensures forall u :: u != t ==> v.Column(u) == Column(u)
      ensures v.title == title && v.storageKey == storageKey
    {
      match t
      case HLS => this.(encoding := status)
      case Thumbnail => this.(thumbnail := status)
      case Caption => this.(caption := status)
    }
  }

  /** An encoding_jobs row. */
  datatype Job = Job(status: Status, attempts: nat, lastError: Option<string>, worker: Option<string>)

  const FRESH_JOB := Job(Pending, 0, None, None)

  datatype Tables = Tables(videos: map<VideoId, Video>, jobs: map<JobKey, Job>) {

    predicate HasJob(k: JobKey) {
      k in jobs
    }

    predicate JobCompleted(k: JobKey) {
      k in jobs && jobs[k].status == Completed
    }

    /** The row exists and its status is anything but completed. */
    predicate JobOpen(k: JobKey) {
      k in jobs && jobs[k].status != Completed
    }

    function Attempts(k: JobKey): nat {
      if k in jobs then jobs[k].attempts else 0
    }

    /** Sets a job row and its column together; a missing row of either table is left missing. */
    function WithStatus(k: JobKey, job: Job): Tables {
      Tables(
        if k.video in videos then videos[k.video := videos[k.video].WithColumn(k.jobType, job.status)] else videos,
        if k in jobs then jobs[k := job] else jobs)
    }
  }

  const EMPTY := Tables(map[], map[])

  lemma EveryJobType(v: VideoId)
    ensures forall t :: JobKey(v, t) in {JobKey(v, HLS), JobKey(v, Thumbnail), JobKey(v, Caption)}
  {
    forall t: JobType ensures JobKey(v, t) in {JobKey(v, HLS), JobKey(v, Thumbnail), JobKey(v, Caption)} {
      match t
      case HLS =>
      case Thumbnail =>
      case Caption =>
    }
  }

  function JobKeys(v: VideoId): (keys: set<JobKey>)
    ensures forall k :: k in keys ==> k.video == v
    ensures forall t :: JobKey(v, t) in keys
  {
    EveryJobType(v);
    {JobKey(v, HLS), JobKey(v, Thumbnail), JobKey(v, Caption)}
  }

  /** The primary key or the unique storage_key is taken. */
  predicate InsertConflicts(t: Tables, id: VideoId, storageKey: Key) {
    id in t.videos || exists v :: v in t.videos && t.videos[v].storageKey == storageKey
  }

  /** One videos row and, unless already there, one pending row per job type. */
  function InsertTx(t: Tables, id: VideoId, title: string, storageKey: Key): Tables {
    Tables(t.videos[id := Video(title, storageKey, Pending, Pending, Pending)],
           (map k | k in JobKeys(id) :: FRESH_JOB) + t.jobs)
  }

  /** ON DELETE CASCADE takes the job rows along. */
  function DeleteTx(t: Tables, id: VideoId): Tables {
    Tables(t.videos - {id}, t.jobs - JobKeys(id))
  }

  /** Claims a job that is not completed. */
  function ClaimTx(t: Tables, k: JobKey, worker: string): Tables {
    if t.JobOpen(k)
    then
      var row := t.jobs[k].(status := Processing, attempts := t.jobs[k].attempts + 1, worker := Some(worker));
      t.(jobs := t.jobs[k := row])
    else t
  }

  function CompleteTx(t: Tables, k: JobKey): Tables {
    if k in t.jobs then t.WithStatus(k, t.jobs[k].(status := Completed))
    else t.WithStatus(k, FRESH_JOB.(status := Completed))
  }

  function FailTx(t: Tables, k: JobKey, message: string): Tables {
    if k in t.jobs then t.WithStatus(k, t.jobs[k].(status := Failed, lastError := Some(message)))
    else t.WithStatus(k, FRESH_JOB.(status := Failed))
  }

  /** Only called on a job row that exists; otherwise the request ends with "not found". */
  function ResetTx(t: Tables, k: JobKey): Tables {
    if k in t.jobs then t.WithStatus(k, FRESH_JOB) else t
  }

  /**
    What the two tables agree on. A job's claim is not copied to its video's
    column, so the column lags behind while the job is processing.
   */
  predicate ColumnMatches(status: Status, column: Status) {
    && (status == column || status == Processing)
    && column != Processing
    && (column == Completed <==> status == Completed)
  }

  ghost predicate Agreement(t: Tables) {
    && (forall v: VideoId, u :: JobKey(v, u) in t.jobs <==> v in t.videos)
    && (forall k :: k in t.jobs && k.video in t.videos ==>
          ColumnMatches(t.jobs[k].status, t.videos[k.video].Column(k.jobType)))
  }

  /** A status is set in both tables together, so they go on agreeing; a claim does not touch the column. */
  lemma StatusAgrees(t: Tables, k: JobKey, job: Job)
    requires Agreement(t) && job.status != Processing
    ensures Agreement(t.WithStatus(k, job))
  {
  }

  lemma CompleteAgrees(t: Tables, k: JobKey)
    requires Agreement(t)
    ensures Agreement(CompleteTx(t, k))
  {
    StatusAgrees(t, k, (if k in t.jobs then t.jobs[k] else FRESH_JOB).(status := Completed));
  }

  lemma FailAgrees(t: Tables, k: JobKey, message: string)
    requires Agreement(t)
    ensures Agreement(FailTx(t, k, message))
  {
    StatusAgrees(t, k, if k in t.jobs then t.jobs[k].(status := Failed, lastError := Some(message))
      else FRESH_JOB.(status := Failed));
  }

  lemma ClaimAgrees(t: Tables, k: JobKey, worker: string)
    requires Agreement(t)
    ensures Agreement(ClaimTx(t, k, worker))
  {
  }

  lemma InsertAgrees(t: Tables, id: VideoId, title: string, storageKey: Key)
    requires Agreement(t) && id !in t.videos
    ensures Agreement(InsertTx(t, id, title, storageKey))
  {
  }

  lemma DeleteAgrees(t: Tables, id: VideoId)
    requires Agreement(t)
    ensures Agreement(DeleteTx(t, id))
  {
  }
}
