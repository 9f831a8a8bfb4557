/**
 A job in a server's queue: the commands a client may give it between two reports of the
 server, and how a report is compared with the job and taken over.
 */
module Job {
  import opened Dword

  const JS_PENDING: bv32 := 0x001
  const JS_INPROGRESS: bv32 := 0x002
  const JS_DELETING: bv32 := 0x004
  const JS_FAILED: bv32 := 0x008
  const JS_PAUSED: bv32 := 0x010
  const JS_NOLINE: bv32 := 0x020
  const JS_RETRYING: bv32 := 0x040
  const JS_RETRIES_EXCEEDED: bv32 := 0x080
  const JS_COMPLETED: bv32 := 0x100
  const JS_CANCELED: bv32 := 0x200
  const JS_CANCELING: bv32 := 0x400
  const JS_ROUTING: bv32 := 0x800

  const FAX_JOB_OP_PAUSE: bv32 := 0x02
  const FAX_JOB_OP_RESUME: bv32 := 0x04
  const FAX_JOB_OP_RESTART: bv32 := 0x08
  const FAX_JOB_OP_DELETE: bv32 := 0x10
  const FAX_JOB_OP_PROPERTIES: bv32 := 0x80

  const FAX_JOB_FIELD_SIZE: bv32 := 0x0010
  const FAX_JOB_FIELD_PAGE_COUNT: bv32 := 0x0020
  const FAX_JOB_FIELD_CURRENT_PAGE: bv32 := 0x0040
  const FAX_JOB_FIELD_SCHEDULE_TIME: bv32 := 0x0100
  const FAX_JOB_FIELD_TRANSMISSION_START_TIME: bv32 := 0x0800
  const FAX_JOB_FIELD_TRANSMISSION_END_TIME: bv32 := 0x1000
  const FAX_JOB_FIELD_RETRIES: bv32 := 0x4000

  // ---------------------------------------------------------------- state

  /** A string pointer. */
  datatype Text = NULL | Text(s: string)

  /** The values a report has for the fields that its validity mask covers; times are numbers,
      the empty time being 0. */
  datatype Fields = Fields(size: int, pageCount: int, currentPage: int, scheduleTime: int,
                           startTime: int, endTime: int, retries: int)

  const ZERO := Fields(0, 0, 0, 0, 0, 0, 0)

  datatype Ids = Ids(jobID: int, jobType: int, extendedStatus: int, deviceID: int)

  datatype Strings<T> = Strings(extendedStatus: T, tsid: T, csid: T, deviceName: T, callerID: T, routingInfo: T)

  /** FAX_JOB_STATUS */
  datatype Status = Status(mask: bv32, queueStatus: bv32, available: bv32, ids: Ids, fields: Fields, strings: Strings<Text>)

  /** The fields of CJob that a status concerns; `own` is m_dwJobOnlyValidityMask. */
  datatype JobState = JobState(own: bv32, mask: bv32, queueStatus: bv32, possible: bv32,
                               ids: Ids, fields: Fields, strings: Strings<string>)

  // ---------------------------------------------------------------- taking over a status

  /** CString::operator= of a pointer, which may be null. */
  function Assigned(t: Text): string { if t.NULL? then "" else t.s }

  /** The values of the fields in the mask; the others count as 0. */
  function Masked(f: Fields, mask: bv32): Fields {
    Fields(if Has(mask, FAX_JOB_FIELD_SIZE) then f.size else 0,
           if Has(mask, FAX_JOB_FIELD_PAGE_COUNT) then f.pageCount else 0,
           if Has(mask, FAX_JOB_FIELD_CURRENT_PAGE) then f.currentPage else 0,
           if Has(mask, FAX_JOB_FIELD_SCHEDULE_TIME) then f.scheduleTime else 0,
           if Has(mask, FAX_JOB_FIELD_TRANSMISSION_START_TIME) then f.startTime else 0,
           if Has(mask, FAX_JOB_FIELD_TRANSMISSION_END_TIME) then f.endTime else 0,
           if Has(mask, FAX_JOB_FIELD_RETRIES) then f.retries else 0)
  }

  function AssignedAll(t: Strings<Text>): Strings<string> {
    Strings(Assigned(t.extendedStatus), Assigned(t.tsid), Assigned(t.csid),
            Assigned(t.deviceName), Assigned(t.callerID), Assigned(t.routingInfo))
  }

  function Combined(own: bv32, mask: bv32): bv32 { own | mask }

  function WithProperties(ops: bv32): bv32 { ops | FAX_JOB_OP_PROPERTIES }

  /** The job after UpdateStatus. */
  function Updated(j: JobState, s: Status): JobState {
    var mask := Combined(j.own, s.mask);
    JobState(j.own, mask, s.queueStatus, WithProperties(s.available), s.ids, Masked(s.fields, mask), AssignedAll(s.strings))
  }

  /** `u` is what a job is to be after the report `s`: a field counts if the report or the job's own mask
      says so, and is 0 otherwise; PROPERTIES is always possible, beside what the report says; a null
      string is empty. */
  ghost predicate TakesOver(own: bv32, s: Status, u: JobState) {
    && u.own == own && Bits(u.mask) == Bits(own) + Bits(s.mask)
    && u.queueStatus == s.queueStatus && u.ids == s.ids
    && Bits(u.possible) == Bits(s.available) + {7}
    && u.fields.size == (if u.mask & FAX_JOB_FIELD_SIZE != 0 then s.fields.size else 0)
    && u.fields.pageCount == (if u.mask & FAX_JOB_FIELD_PAGE_COUNT != 0 then s.fields.pageCount else 0)
    && u.fields.currentPage == (if u.mask & FAX_JOB_FIELD_CURRENT_PAGE != 0 then s.fields.currentPage else 0)
    && u.fields.scheduleTime == (if u.mask & FAX_JOB_FIELD_SCHEDULE_TIME != 0 then s.fields.scheduleTime else 0)
    && u.fields.startTime == (if u.mask & FAX_JOB_FIELD_TRANSMISSION_START_TIME != 0 then s.fields.startTime else 0)
    && u.fields.endTime == (if u.mask & FAX_JOB_FIELD_TRANSMISSION_END_TIME != 0 then s.fields.endTime else 0)
    && u.fields.retries == (if u.mask & FAX_JOB_FIELD_RETRIES != 0 then s.fields.retries else 0)
    && Reads(u.strings.extendedStatus, s.strings.extendedStatus) && Reads(u.strings.tsid, s.strings.tsid)
    && Reads(u.strings.csid, s.strings.csid) && Reads(u.strings.deviceName, s.strings.deviceName)
    && Reads(u.strings.callerID, s.strings.callerID) && Reads(u.strings.routingInfo, s.strings.routingInfo)
  }

  predicate Reads(mine: string, t: Text) { t == Text(mine) || (t == NULL && mine == "") }

  /** UpdateStatus makes that of the job. */
  lemma UpdatedTakesOver(j: JobState, s: Status)
    ensures TakesOver(j.own, s, Updated(j, s))
  {
    CombinedBits(j.own, s.mask);
    PropertiesBits(s.available);
  }

  /** Nothing else is it. */
  lemma TakenOverOneWay(own: bv32, s: Status, u: JobState, w: JobState)
    requires TakesOver(own, s, u) && TakesOver(own, s, w)
    ensures u == w
  {
    SameBits(u.mask, w.mask);
    SameBits(u.possible, w.possible);
  }

  lemma CombinedBits(own: bv32, mask: bv32)
    ensures Bits(Combined(own, mask)) == Bits(own) + Bits(mask)
  {
    assert Combined(own, mask) == Or(own, mask);
  }

  lemma PropertiesBits(ops: bv32)
    ensures Bits(WithProperties(ops)) == Bits(ops) + {7}
  {
    assert Only(FAX_JOB_OP_PROPERTIES, 7);
    OnlyBits(FAX_JOB_OP_PROPERTIES, 7);
    assert WithProperties(ops) == Or(ops, FAX_JOB_OP_PROPERTIES);
  }

  /** IsNewStatus passes over a null pointer. */
  predicate Differs(mine: string, t: Text) { t.Text? && mine != t.s }

  predicate AnyDiffers(mine: Strings<string>, t: Strings<Text>) {
    || Differs(mine.extendedStatus, t.extendedStatus) || Differs(mine.tsid, t.tsid) || Differs(mine.csid, t.csid)
    || Differs(mine.deviceName, t.deviceName) || Differs(mine.callerID, t.callerID) || Differs(mine.routingInfo, t.routingInfo)
  }

  /** IsNewStatus compares all values, whatever the mask. */
  predicate IsNew(j: JobState, s: Status) {
    || j.mask != Combined(j.own, s.mask) || j.ids != s.ids || j.queueStatus != s.queueStatus
    || j.fields != s.fields || j.possible != WithProperties(s.available)
    || AnyDiffers(j.strings, s.strings)
  }

  /** Values outside the combined mask are 0. */
  predicate NoStrayValues(s: Status, own: bv32) { Masked(s.fields, Combined(own, s.mask)) == s.fields }

  predicate NoNulls(t: Strings<Text>) {
    t.extendedStatus.Text? && t.tsid.Text? && t.csid.Text? && t.deviceName.Text? && t.callerID.Text? && t.routingInfo.Text?
  }

  /** As every job is after Init: what is outside its mask is 0. */
  predicate Normal(j: JobState) { Masked(j.fields, j.mask) == j.fields }

  lemma MaskedTwice(f: Fields, mask: bv32)
    ensures Masked(Masked(f, mask), mask) == Masked(f, mask)
  {}

  /** Taking over a status makes the job normal, and taking it over again changes nothing. */
  lemma UpdateTwice(j: JobState, s: Status)
    ensures var u := Updated(j, s); Normal(u) && Updated(u, s) == u
  {
    MaskedTwice(s.fields, Combined(j.own, s.mask));
  }

  /** Right after UpdateStatus the status is not new, if and only if it has no stray values. */
  lemma NotNewAfterUpdate(j: JobState, s: Status)
    ensures !IsNew(Updated(j, s), s) <==> NoStrayValues(s, j.own)
  {}

  /** What IsNewStatus finds: a change UpdateStatus would make, but for null strings, or a stray
      value. */
  lemma NotNewMeans(j: JobState, s: Status)
    requires Normal(j) && NoNulls(s.strings)
    ensures !IsNew(j, s) <==> Updated(j, s) == j && NoStrayValues(s, j.own)
  {}

  /** The strings that are null in the status are empty in the job. */
  predicate NullsAreEmpty(mine: Strings<string>, t: Strings<Text>) {
    && (t.extendedStatus.NULL? ==> mine.extendedStatus == "") && (t.tsid.NULL? ==> mine.tsid == "")
    && (t.csid.NULL? ==> mine.csid == "") && (t.deviceName.NULL? ==> mine.deviceName == "")
    && (t.callerID.NULL? ==> mine.callerID == "") && (t.routingInfo.NULL? ==> mine.routingInfo == "")
  }

  /** Job and status agree in the values under the mask, and in the strings that are not null. */
  predicate Agrees(j: JobState, s: Status) {
    && j.mask == Combined(j.own, s.mask) && j.ids == s.ids && j.queueStatus == s.queueStatus
    && j.fields == Masked(s.fields, j.mask) && j.possible == WithProperties(s.available)
    && !AnyDiffers(j.strings, s.strings)
  }

  /** For one job and one status: the status is new exactly if it would change the job, if and
      only if they disagree anyway, or there is neither a stray value nor a null string that
      the job has a text for, or there are both. */
  lemma DetectsIff(j: JobState, s: Status)
    requires Normal(j)
    ensures (IsNew(j, s) <==> Updated(j, s) != j) <==>
      (Agrees(j, s) ==> (NoStrayValues(s, j.own) <==> NullsAreEmpty(j.strings, s.strings)))
    ensures NoNulls(s.strings) ==> NullsAreEmpty(j.strings, s.strings)
  {
    AssignedIff(j.strings, s.strings);
  }

  lemma AssignedIff(mine: Strings<string>, t: Strings<Text>)
    ensures mine == AssignedAll(t) <==> !AnyDiffers(mine, t) && NullsAreEmpty(mine, t)
  {}

  /** A job on a device, and a report of it without the device's name: nothing seems new, and
      the name stays. */
  lemma NullNameGoesUnnoticed(j: JobState)
    requires Normal(j) && j.strings == Strings("", "", "", "Fax 1", "", "") && j.possible == WithProperties(0) && j.own == j.mask
    ensures var s := Status(0, j.queueStatus, 0, j.ids, j.fields, Strings(Text(""), Text(""), Text(""), NULL, Text(""), Text("")));
      !IsNew(j, s) && Updated(j, s).strings.deviceName == ""
  {
    OwnMask(j.own);
  }

  lemma OwnMask(own: bv32)
    ensures Combined(own, 0) == own
  {}

  /** A status is new exactly for the jobs it would change, whatever the job, if and only if it
      has no null strings and no stray values. */
  lemma DetectsExactly(s: Status, own: bv32)
    ensures (forall j: JobState | j.own == own && Normal(j) :: IsNew(j, s) <==> Updated(j, s) != j)
       <==> NoNulls(s.strings) && NoStrayValues(s, own)
  {
    if NoNulls(s.strings) && NoStrayValues(s, own) {
      forall j: JobState | j.own == own && Normal(j) ensures IsNew(j, s) <==> Updated(j, s) != j {
        NotNewMeans(j, s);
      }
    } else {
      var any := JobState(own, 0, 0, 0, s.ids, ZERO, AssignedAll(s.strings));
      var u := Updated(any, s);
      UpdateTwice(any, s);
      NotNewAfterUpdate(any, s);
      if NoStrayValues(s, own) {
        var j := u.(strings := Named(s.strings));
        NullsGoUnnoticed(s.strings);
        assert Normal(j) && !IsNew(j, s) && Updated(j, s) == u != j;
      } else {
        assert IsNew(u, s) && Updated(u, s) == u;
      }
    }
  }

  /** Strings that agree with the non-null ones of `t`, and are not empty elsewhere. */
  function Named(t: Strings<Text>): Strings<string> {
    Strings(Name(t.extendedStatus), Name(t.tsid), Name(t.csid), Name(t.deviceName), Name(t.callerID), Name(t.routingInfo))
  }

  function Name(t: Text): string { if t.NULL? then "?" else t.s }

  lemma NullsGoUnnoticed(t: Strings<Text>)
    ensures !AnyDiffers(Named(t), t) && (Named(t) != AssignedAll(t) <==> !NoNulls(t))
  {
    assert Name(NULL) != Assigned(NULL);
  }

  // ---------------------------------------------------------------- commands

  datatype Command = PAUSE | RESUME | RESTART | DELETE

  function OpOf(c: Command): bv32 {
    match c
    case PAUSE => FAX_JOB_OP_PAUSE
    case RESUME => FAX_JOB_OP_RESUME
    case RESTART => FAX_JOB_OP_RESTART
    case DELETE => FAX_JOB_OP_DELETE
  }

  /** The job after a command the server has accepted. */
  function Done(j: JobState, c: Command): JobState {
    match c
    case PAUSE =>
      j.(queueStatus := Set(j.queueStatus, JS_PAUSED), possible := Set(Clear(j.possible, FAX_JOB_OP_PAUSE), FAX_JOB_OP_RESUME))
    case RESUME =>
      j.(queueStatus := Clear(j.queueStatus, JS_PAUSED), possible := Set(Clear(j.possible, FAX_JOB_OP_RESUME), FAX_JOB_OP_PAUSE))
    case RESTART =>
      j.(queueStatus := JS_PENDING, possible := Set(Clear(j.possible, FAX_JOB_OP_RESTART), FAX_JOB_OP_PAUSE))
    case DELETE => j.(possible := Clear(j.possible, FAX_JOB_OP_DELETE))
  }

  /** `u` is what an accepted command is to make of job `j`.  Bit 4 of the queue status is PAUSED, 0 is
      PENDING; of the operations 1 is PAUSE, 2 RESUME, 3 RESTART and 4 DELETE. */
  ghost predicate Obeys(c: Command, j: JobState, u: JobState) {
    && u == j.(queueStatus := u.queueStatus, possible := u.possible)
    && var was, now := Bits(j.possible), Bits(u.possible);
    match c
    case PAUSE => Bits(u.queueStatus) == Bits(j.queueStatus) + {4} && now == was - {1} + {2}
    case RESUME => Bits(u.queueStatus) == Bits(j.queueStatus) - {4} && now == was - {2} + {1}
    case RESTART => Bits(u.queueStatus) == {0} && now == was - {3} + {1}
    case DELETE => u.queueStatus == j.queueStatus && now == was - {4}
  }

  lemma CommandBits()
    ensures Bits(JS_PENDING) == {0} && Bits(FAX_JOB_OP_PAUSE) == {1} && Bits(FAX_JOB_OP_RESUME) == {2}
    ensures Bits(FAX_JOB_OP_RESTART) == {3} && Bits(FAX_JOB_OP_DELETE) == {4} && Bits(JS_PAUSED) == {4}
  {
    assert OneBit(0) == 1 && OneBit(1) == 2 && OneBit(2) == 4 && OneBit(3) == 8 && OneBit(4) == 16;
  }

  lemma SetBits(x: bv32, m: bv32)
    ensures Bits(Set(x, m)) == Bits(x) + Bits(m)
  {
    assert Set(x, m) == Or(x, m);
  }

  lemma ClearBits(x: bv32, m: bv32)
    ensures Bits(Clear(x, m)) == Bits(x) - Bits(m)
  {
    assert Clear(x, m) == ButNot(x, m);
  }

  lemma SwapBits(x: bv32, drop: bv32, add: bv32)
    ensures Bits(Set(Clear(x, drop), add)) == Bits(x) - Bits(drop) + Bits(add)
  {
    ClearBits(x, drop);
    SetBits(Clear(x, drop), add);
  }

  /** An accepted command has its whole effect and no other. */
  lemma DoneObeys(j: JobState, c: Command)
    ensures Obeys(c, j, Done(j, c))
  {
    CommandBits();
    match c {
      case PAUSE =>
        SetBits(j.queueStatus, JS_PAUSED);
        SwapBits(j.possible, FAX_JOB_OP_PAUSE, FAX_JOB_OP_RESUME);
      case RESUME =>
        ClearBits(j.queueStatus, JS_PAUSED);
        SwapBits(j.possible, FAX_JOB_OP_RESUME, FAX_JOB_OP_PAUSE);
      case RESTART => SwapBits(j.possible, FAX_JOB_OP_RESTART, FAX_JOB_OP_PAUSE);
      case DELETE => ClearBits(j.possible, FAX_JOB_OP_DELETE);
    }
  }

  /** One of the bits that commands look at or change. */
  predicate Single(m: bv32) { m == 0x02 || m == 0x04 || m == 0x08 || m == 0x10 }

  lemma SetHas(x: bv32, m: bv32, n: bv32)
    requires Single(m) && Single(n)
    ensures Has(Set(x, m), n) <==> n == m || Has(x, n)
  {}

  lemma ClearHas(x: bv32, m: bv32, n: bv32)
    requires Single(m) && Single(n)
    ensures Has(Clear(x, m), n) <==> n != m && Has(x, n)
  {}

  /** Bit `drop` goes, bit `add` comes, the others stay. */
  lemma SwapHas(x: bv32, drop: bv32, add: bv32, n: bv32)
    requires Single(drop) && Single(add) && Single(n)
    ensures Has(Set(Clear(x, drop), add), n) <==> n == add || (n != drop && Has(x, n))
  {
    SetHas(Clear(x, drop), add, n);
    ClearHas(x, drop, n);
  }

  predicate IsPaused(j: JobState) { Has(j.queueStatus, JS_PAUSED) }

  predicate Offers(j: JobState, c: Command) { Has(j.possible, OpOf(c)) }

  /** RESUME is for paused jobs and PAUSE for others; a job to be restarted is neither. */
  predicate Sane(j: JobState) {
    && (Offers(j, RESUME) ==> IsPaused(j))
    && (Offers(j, PAUSE) ==> !IsPaused(j))
    && (Offers(j, RESTART) ==> !IsPaused(j) && !Offers(j, PAUSE) && !Offers(j, RESUME))
  }

  lemma OpsDiffer(c: Command, d: Command)
    ensures Single(OpOf(c)) && (OpOf(c) == OpOf(d) <==> c == d)
  {}

  lemma SwapOffers(x: bv32, drop: Command, add: Command, d: Command)
    ensures Has(Set(Clear(x, OpOf(drop)), OpOf(add)), OpOf(d)) <==> d == add || (d != drop && Has(x, OpOf(d)))
  {
    OpsDiffer(d, add);
    OpsDiffer(d, drop);
    OpsDiffer(drop, d);
    OpsDiffer(add, d);
    SwapHas(x, OpOf(drop), OpOf(add), OpOf(d));
  }

  lemma DropOffers(x: bv32, drop: Command, d: Command)
    ensures Has(Clear(x, OpOf(drop)), OpOf(d)) <==> d != drop && Has(x, OpOf(d))
  {
    OpsDiffer(d, drop);
    OpsDiffer(drop, d);
    ClearHas(x, OpOf(drop), OpOf(d));
  }

  /** What a command does to the offer of another. */
  lemma DoneOffers(j: JobState, c: Command, d: Command)
    ensures Offers(Done(j, c), d) <==> match c
      case PAUSE => d == RESUME || (d != PAUSE && Offers(j, d))
      case RESUME => d == PAUSE || (d != RESUME && Offers(j, d))
      case RESTART => d == PAUSE || (d != RESTART && Offers(j, d))
      case DELETE => d != DELETE && Offers(j, d)
  {
    match c
    case PAUSE => SwapOffers(j.possible, PAUSE, RESUME, d);
    case RESUME => SwapOffers(j.possible, RESUME, PAUSE, d);
    case RESTART => SwapOffers(j.possible, RESTART, PAUSE, d);
    case DELETE => DropOffers(j.possible, DELETE, d);
  }

  /** What a command does to the paused bit. */
  lemma DonePaused(j: JobState, c: Command)
    ensures IsPaused(Done(j, c)) <==> c == PAUSE || (c == DELETE && IsPaused(j))
  {
    SetHas(j.queueStatus, JS_PAUSED, JS_PAUSED);
    ClearHas(j.queueStatus, JS_PAUSED, JS_PAUSED);
    assert !Has(JS_PENDING, JS_PAUSED);
  }

  /** An accepted command keeps a job sane. */
  lemma DoneKeepsSane(j: JobState, c: Command)
    requires Sane(j) && Offers(j, c)
    ensures Sane(Done(j, c))
  {
    DonePaused(j, c);
    DoneOffers(j, c, PAUSE);
    DoneOffers(j, c, RESUME);
    DoneOffers(j, c, RESTART);
  }

  /** Pause and Resume undo each other. */
  lemma PauseResume(j: JobState)
    requires Sane(j)
    ensures Offers(j, PAUSE) ==> Done(Done(j, PAUSE), RESUME) == j && Offers(Done(j, PAUSE), RESUME)
    ensures Offers(j, RESUME) ==> Done(Done(j, RESUME), PAUSE) == j && Offers(Done(j, RESUME), PAUSE)
  {
    DonePaused(j, PAUSE);
    DoneOffers(j, PAUSE, RESUME);
    DoneOffers(j, RESUME, PAUSE);
    if Offers(j, PAUSE) {
      SetClear(j.queueStatus, JS_PAUSED);
      SwapBack(j.possible, FAX_JOB_OP_PAUSE, FAX_JOB_OP_RESUME);
    }
    if Offers(j, RESUME) {
      ClearSet(j.queueStatus, JS_PAUSED);
      SwapBack(j.possible, FAX_JOB_OP_RESUME, FAX_JOB_OP_PAUSE);
    }
  }

  lemma SetClear(x: bv32, m: bv32)
    requires Single(m) && !Has(x, m)
    ensures Clear(Set(x, m), m) == x
  {}

  lemma ClearSet(x: bv32, m: bv32)
    requires Single(m) && Has(x, m)
    ensures Set(Clear(x, m), m) == x
  {}

  lemma SwapBack(x: bv32, m: bv32, n: bv32)
    requires Single(m) && Single(n) && m != n && Has(x, m) && !Has(x, n)
    ensures Set(Clear(Set(Clear(x, m), n), n), m) == x
  {
    ClearHas(x, m, n);
    SetClear(Clear(x, m), n);
    ClearSet(x, m);
  }

  // ---------------------------------------------------------------- runs of commands

  /** A command and whether it got through: refused here or by the server it changes nothing. */
  datatype Attempt = Attempt(command: Command, accepted: bool)

  ghost predicate IsRun(trace: seq<JobState>, attempts: seq<Attempt>) {
    && |trace| == |attempts| + 1 && Sane(trace[0])
    && forall i | 0 <= i < |attempts| :: Step(trace[i], attempts[i], trace[i + 1])
  }

  predicate Step(s: JobState, a: Attempt, t: JobState) {
    if a.accepted then Offers(s, a.command) && t == Done(s, a.command) else t == s
  }

  lemma StepKeepsSane(s: JobState, a: Attempt, t: JobState)
    requires Sane(s) && Step(s, a, t)
    ensures Sane(t)
  {
    if a.accepted { DoneKeepsSane(s, a.command); }
  }

  lemma {:induction false} SaneInEveryRun(trace: seq<JobState>, attempts: seq<Attempt>, i: nat)
    requires IsRun(trace, attempts) && i < |trace|
    ensures Sane(trace[i])
  {
    if i > 0 {
      SaneInEveryRun(trace, attempts, i - 1);
      StepKeepsSane(trace[i - 1], attempts[i - 1], trace[i]);
    }
  }

  /** What is no longer offered of RESTART and DELETE never comes back. */
  lemma {:induction false} NeverAgain(trace: seq<JobState>, attempts: seq<Attempt>, c: Command, i: nat, j: nat)
    requires IsRun(trace, attempts) && i <= j < |trace| && (c == RESTART || c == DELETE) && !Offers(trace[i], c)
    ensures !Offers(trace[j], c)
    decreases j
  {
    if i < j {
      NeverAgain(trace, attempts, c, i, j - 1);
      assert Step(trace[j - 1], attempts[j - 1], trace[j]);
      if attempts[j - 1].accepted { DoneOffers(trace[j - 1], attempts[j - 1].command, c); }
    }
  }

  /** Between two reports of the server, RESTART and DELETE are accepted at most once each. */
  lemma AtMostOnce(trace: seq<JobState>, attempts: seq<Attempt>, i: nat, j: nat)
    requires IsRun(trace, attempts) && i < j < |attempts| && attempts[i] == attempts[j] && attempts[i].accepted
    ensures attempts[i].command == PAUSE || attempts[i].command == RESUME
  {
    var c := attempts[i].command;
    assert Step(trace[j], attempts[j], trace[j + 1]);
    if c == RESTART || c == DELETE {
      DoneOffers(trace[i], c, c);
      assert Step(trace[i], attempts[i], trace[i + 1]);
      NeverAgain(trace, attempts, c, i + 1, j);
    }
  }

  /** PAUSE and RESUME alternate: between two accepted PAUSE there is an accepted RESUME or
      RESTART, and between two RESUME a PAUSE. */
  lemma {:induction false} Alternate(trace: seq<JobState>, attempts: seq<Attempt>, i: nat, j: nat)
    requires IsRun(trace, attempts) && i < j < |attempts| && attempts[i] == attempts[j] && attempts[i].accepted
    requires attempts[i].command == PAUSE || attempts[i].command == RESUME
    ensures exists k :: i < k < j && Reoffers(attempts[k], attempts[i].command)
  {
    var c := attempts[i].command;
    assert Step(trace[j], attempts[j], trace[j + 1]);
    DoneOffers(trace[i], c, c);
    assert Step(trace[i], attempts[i], trace[i + 1]);
    var k := i + 1;
    while k < j && !Reoffers(attempts[k], c)
      invariant i < k <= j && !Offers(trace[k], c)
      decreases j - k
    {
      assert Step(trace[k], attempts[k], trace[k + 1]);
      if attempts[k].accepted { DoneOffers(trace[k], attempts[k].command, c); }
      k := k + 1;
    }
  }

  /** An accepted command that makes `c` possible. */
  predicate Reoffers(a: Attempt, c: Command) {
    a.accepted && ((c == PAUSE && (a.command == RESUME || a.command == RESTART)) || (c == RESUME && a.command == PAUSE))
  }

  // ---------------------------------------------------------------- status

  datatype JobStatusType =
    | JOB_STAT_PENDING | JOB_STAT_INPROGRESS | JOB_STAT_DELETING | JOB_STAT_PAUSED | JOB_STAT_RETRYING
    | JOB_STAT_RETRIES_EXCEEDED | JOB_STAT_COMPLETED | JOB_STAT_CANCELED | JOB_STAT_CANCELING | JOB_STAT_ROUTING
    | JOB_STAT_UNKNOWN

  function StatusOf(queueStatus: bv32): JobStatusType {
    if Has(queueStatus, JS_PAUSED) then JOB_STAT_PAUSED
    else
      var q := Clear(queueStatus, JS_PAUSED | JS_NOLINE);
      if q == JS_PENDING then JOB_STAT_PENDING
      else if q == JS_INPROGRESS || q == JS_FAILED then JOB_STAT_INPROGRESS
      else if q == JS_DELETING then JOB_STAT_DELETING
      else if q == JS_RETRYING then JOB_STAT_RETRYING
      else if q == JS_RETRIES_EXCEEDED then JOB_STAT_RETRIES_EXCEEDED
      else if q == JS_COMPLETED then JOB_STAT_COMPLETED
      else if q == JS_CANCELED then JOB_STAT_CANCELED
      else if q == JS_CANCELING then JOB_STAT_CANCELING
      else if q == JS_ROUTING then JOB_STAT_ROUTING
      else JOB_STAT_UNKNOWN
  }

  /** A job is shown as paused exactly when the bit is set; NOLINE makes no difference. */
  lemma PausedIff(j: JobState)
    ensures StatusOf(j.queueStatus) == JOB_STAT_PAUSED <==> IsPaused(j)
    ensures StatusOf(Set(j.queueStatus, JS_NOLINE)) == StatusOf(j.queueStatus)
  {
    NoLine(j.queueStatus);
  }

  lemma NoLine(x: bv32)
    ensures Has(Set(x, JS_NOLINE), JS_PAUSED) <==> Has(x, JS_PAUSED)
    ensures Clear(Set(x, JS_NOLINE), JS_PAUSED | JS_NOLINE) == Clear(x, JS_PAUSED | JS_NOLINE)
  {}

  /** Nothing but `m` is set, if NOLINE is not counted. */
  predicate Alone(x: bv32, m: bv32) { x == m || x == m | JS_NOLINE }

  /** Each status is shown exactly for one bit of its own, or of two for INPROGRESS, which also stands
      for a job that is about to go; what is paused is shown as that, and any mixture as unknown. */
  lemma StatusIff(x: bv32)
    requires !Has(x, JS_PAUSED)
    ensures var s := StatusOf(x);
      && (s == JOB_STAT_PENDING <==> Alone(x, JS_PENDING))
      && (s == JOB_STAT_INPROGRESS <==> Alone(x, JS_INPROGRESS) || Alone(x, JS_FAILED))
      && (s == JOB_STAT_DELETING <==> Alone(x, JS_DELETING))
      && (s == JOB_STAT_RETRYING <==> Alone(x, JS_RETRYING))
      && (s == JOB_STAT_RETRIES_EXCEEDED <==> Alone(x, JS_RETRIES_EXCEEDED))
      && (s == JOB_STAT_COMPLETED <==> Alone(x, JS_COMPLETED))
      && (s == JOB_STAT_CANCELED <==> Alone(x, JS_CANCELED))
      && (s == JOB_STAT_CANCELING <==> Alone(x, JS_CANCELING))
      && (s == JOB_STAT_ROUTING <==> Alone(x, JS_ROUTING))
      && s != JOB_STAT_PAUSED
  {
    AloneIff(x, JS_PENDING); AloneIff(x, JS_INPROGRESS); AloneIff(x, JS_FAILED); AloneIff(x, JS_DELETING);
    AloneIff(x, JS_RETRYING); AloneIff(x, JS_RETRIES_EXCEEDED); AloneIff(x, JS_COMPLETED);
    AloneIff(x, JS_CANCELED); AloneIff(x, JS_CANCELING); AloneIff(x, JS_ROUTING);
  }

  lemma AloneIff(x: bv32, m: bv32)
    requires !Has(x, JS_PAUSED) && m & 0x30 == 0
    ensures Clear(x, JS_PAUSED | JS_NOLINE) == m <==> Alone(x, m)
  {
    if Clear(x, JS_PAUSED | JS_NOLINE) == m { AloneIf(x, m); }
    if Alone(x, m) { AloneOnlyIf(x, m); }
  }

  lemma AloneIf(x: bv32, m: bv32)
    requires !Has(x, JS_PAUSED) && Clear(x, JS_PAUSED | JS_NOLINE) == m
    ensures Alone(x, m)
  {}

  lemma AloneOnlyIf(x: bv32, m: bv32)
    requires m & 0x30 == 0 && Alone(x, m)
    ensures Clear(x, JS_PAUSED | JS_NOLINE) == m
  {}

  /** What the user sees after each command. */
  lemma StatusAfter(j: JobState)
    ensures StatusOf(Done(j, PAUSE).queueStatus) == JOB_STAT_PAUSED
    ensures StatusOf(Done(j, RESTART).queueStatus) == JOB_STAT_PENDING
    ensures Sane(j) && Offers(j, PAUSE) ==> StatusOf(Done(Done(j, PAUSE), RESUME).queueStatus) == StatusOf(j.queueStatus)
    ensures StatusOf(Done(j, DELETE).queueStatus) == StatusOf(j.queueStatus)
  {
    DonePaused(j, PAUSE);
    if Sane(j) { PauseResume(j); }
    DonePaused(j, RESTART);
    assert Clear(JS_PENDING, JS_PAUSED | JS_NOLINE) == JS_PENDING;
  }

  // ---------------------------------------------------------------- the job object

  const ERROR_SUCCESS := 0
  const ERROR_CAN_NOT_COMPLETE := 1003

  /** The server's answer: no connection, or FaxSetJob refused with the last error, or done. */
  datatype Answer = NoConnection(error: int) | Refused(lastError: int) | Accepted

  predicate IsCommand(op: bv32) {
    op == FAX_JOB_OP_PAUSE || op == FAX_JOB_OP_RESUME || op == FAX_JOB_OP_RESTART || op == FAX_JOB_OP_DELETE
  }

  function CommandOf(op: bv32): (c: Command)
    requires IsCommand(op)
    ensures OpOf(c) == op
  {
    if op == FAX_JOB_OP_PAUSE then PAUSE
    else if op == FAX_JOB_OP_RESUME then RESUME
    else if op == FAX_JOB_OP_RESTART then RESTART
    else DELETE
  }

  class CJob {
    var jobOnlyValidityMask: bv32
    var validityMask: bv32
    var queueStatus: bv32
    var possibleOperations: bv32
    var ids: Ids
    var fields: Fields
    var strings: Strings<string>

    function Now(): JobState
      reads this
    {
      JobState(jobOnlyValidityMask, validityMask, queueStatus, possibleOperations, ids, fields, strings)
    }

    /** Init of a job that comes with a status. */
    constructor (mask: bv32, status: Status)
      ensures TakesOver(mask, status, Now()) && Updated(Now(), status) == Now() && Normal(Now())
    {
      jobOnlyValidityMask := mask;
      new;
      UpdateStatus(status);
      UpdateTwice(JobState(mask, 0, 0, 0, status.ids, ZERO, AssignedAll(status.strings)), status);
    }

    method UpdateStatus(status: Status)
      modifies this
      ensures Now() == Updated(old(Now()), status) && TakesOver(old(jobOnlyValidityMask), status, Now())
    {
      UpdatedTakesOver(Now(), status);
      var mask := Combined(jobOnlyValidityMask, status.mask);
      validityMask := mask;
      ids := status.ids;
      queueStatus := status.queueStatus;
      var values := ZERO;
      if Has(mask, FAX_JOB_FIELD_SIZE) { values := values.(size := status.fields.size); }
      if Has(mask, FAX_JOB_FIELD_PAGE_COUNT) { values := values.(pageCount := status.fields.pageCount); }
      if Has(mask, FAX_JOB_FIELD_CURRENT_PAGE) { values := values.(currentPage := status.fields.currentPage); }
      if Has(mask, FAX_JOB_FIELD_SCHEDULE_TIME) { values := values.(scheduleTime := status.fields.scheduleTime); }
      if Has(mask, FAX_JOB_FIELD_TRANSMISSION_START_TIME) { values := values.(startTime := status.fields.startTime); }
      if Has(mask, FAX_JOB_FIELD_TRANSMISSION_END_TIME) { values := values.(endTime := status.fields.endTime); }
      if Has(mask, FAX_JOB_FIELD_RETRIES) { values := values.(retries := status.fields.retries); }
      fields := values;
      strings := AssignedAll(status.strings);
      possibleOperations := WithProperties(status.available);
    }

    method IsNewStatus(status: Status) returns (r: bool)
      ensures r <==> IsNew(Now(), status)
      ensures Normal(Now()) && NoNulls(status.strings) && NoStrayValues(status, Now().own) ==>
        (r <==> Updated(Now(), status) != Now())
    {
      if Normal(Now()) { DetectsIff(Now(), status); }
      if validityMask != Combined(jobOnlyValidityMask, status.mask) {
        return true;
      }
      if ids != status.ids || queueStatus != status.queueStatus || fields != status.fields {
        return true;
      }
      if possibleOperations != WithProperties(status.available) {
        return true;
      }
      return AnyDiffers(strings, status.strings);
    }

    /** The handler of a job notification: the view is told only if something is new. */
    method OnJobUpdated(status: Status) returns (notify: bool)
      requires Normal(Now())
      modifies this
      ensures Normal(Now()) && Now() == if notify then Updated(old(Now()), status) else old(Now())
      ensures NoNulls(status.strings) && NoStrayValues(status, old(Now().own)) ==>
        Now() == Updated(old(Now()), status) && (notify <==> Now() != old(Now()))
    {
      notify := IsNewStatus(status);
      DetectsExactly(status, Now().own);
      UpdateTwice(Now(), status);
      if notify {
        UpdateStatus(status);
      }
    }

    method DoJobOperation(op: bv32, answer: Answer) returns (result: int)
      modifies this
      ensures !IsCommand(op) || !Offers(old(Now()), CommandOf(op)) ==>
        result == ERROR_CAN_NOT_COMPLETE && Now() == old(Now())
      ensures IsCommand(op) && Offers(old(Now()), CommandOf(op)) ==>
        match answer
        case NoConnection(error) => error != ERROR_SUCCESS ==> result == error && Now() == old(Now())
        case Refused(lastError) => result == lastError && Now() == old(Now())
        case Accepted => result == ERROR_SUCCESS && Now() == Done(old(Now()), CommandOf(op)) && Obeys(CommandOf(op), old(Now()), Now())
    {
      if IsCommand(op) { DoneObeys(Now(), CommandOf(op)); }
      if !IsCommand(op) {
        return ERROR_CAN_NOT_COMPLETE;
      }
      if !Has(possibleOperations, op) {
        return ERROR_CAN_NOT_COMPLETE;
      }
      if answer.NoConnection? {
        return answer.error;
      }
      if answer.Refused? {
        return answer.lastError;
      }
      match CommandOf(op) {
      case PAUSE =>
        queueStatus := Set(queueStatus, JS_PAUSED);
        possibleOperations := Clear(possibleOperations, FAX_JOB_OP_PAUSE);
        possibleOperations := Set(possibleOperations, FAX_JOB_OP_RESUME);
      case RESUME =>
        queueStatus := Clear(queueStatus, JS_PAUSED);
        possibleOperations := Clear(possibleOperations, FAX_JOB_OP_RESUME);
        possibleOperations := Set(possibleOperations, FAX_JOB_OP_PAUSE);
      case RESTART =>
        queueStatus := JS_PENDING;
        possibleOperations := Clear(possibleOperations, FAX_JOB_OP_RESTART);
        possibleOperations := Set(possibleOperations, FAX_JOB_OP_PAUSE);
      case DELETE =>
        possibleOperations := Clear(possibleOperations, FAX_JOB_OP_DELETE);
      }
      return ERROR_SUCCESS;
    }
  }
}
