/** The message bureau (lib/message_bureau/facade_state.py and facade_recording_*.py): append-only logs
    of messages, attempts and replies.  The current state of a message or attempt is its latest record;
    the state of a message is derived from its attempts and replies. */
module MessageBureau {
  import opened Wrappers

  datatype MessageState =
    | Created | Queued | Dispatching | Running | PartiallyReplied
    | Completed | Incomplete | Failed | Cancelled | DeadLetter

  datatype AttemptState =
    | AttemptPending | Delivering | AttemptRunning | WaitingCompletion | ReplyReady | Stalled | RuntimeDead
    | AttemptFailed | AttemptIncomplete | AttemptCancelled | Superseded | AttemptDeadLetter | AttemptCompleted

  datatype ReplyStatus = ReplyCompleted | ReplyIncomplete | ReplyFailed | ReplyCancelled

  datatype JobStatus = JobAccepted | JobQueued | JobRunning | JobCompleted | JobCancelled | JobFailed | JobIncomplete

  predicate Settled(s: MessageState) {
    s.Completed? || s.Incomplete? || s.Failed? || s.Cancelled? || s.DeadLetter?
  }

  predicate Over(s: AttemptState) {
    || s.AttemptCompleted? || s.AttemptIncomplete? || s.AttemptFailed? || s.AttemptCancelled?
    || s.Superseded? || s.AttemptDeadLetter?
  }

  datatype Message = Message(id: string, origin: Option<string>, targets: seq<string>, state: MessageState)

  datatype Attempt = Attempt(id: string, message: string, agent: string, job: string, retryIndex: int, state: AttemptState)

  /** `notice` is the diagnostics flag that marks a reply as a mere notice. */
  datatype Reply = Reply(message: string, attempt: string, status: ReplyStatus, notice: bool)

  datatype Job = Job(id: string, agent: string)

  datatype Logs = Logs(messages: seq<Message>, attempts: seq<Attempt>, replies: seq<Reply>)

  // ----- latest records -------------------------------------------------------------------

  function LatestMessage(ms: seq<Message>, id: string): (r: Option<Message>)
    ensures r.Some? ==> r.value in ms && r.value.id == id
    ensures r.None? ==> forall m :: m in ms ==> m.id != id
  {
    if ms == [] then None
    else if ms[|ms| - 1].id == id then Some(ms[|ms| - 1])
    else LatestMessage(ms[..|ms| - 1], id)
  }

  function LatestAttempt(ats: seq<Attempt>, id: string): (r: Option<Attempt>)
    ensures r.Some? ==> r.value in ats && r.value.id == id
    ensures r.None? ==> forall a :: a in ats ==> a.id != id
  {
    if ats == [] then None
    else if ats[|ats| - 1].id == id then Some(ats[|ats| - 1])
    else LatestAttempt(ats[..|ats| - 1], id)
  }

  function LatestByJob(ats: seq<Attempt>, job: string): (r: Option<Attempt>)
    ensures r.Some? ==> r.value in ats && r.value.job == job
  {
    if ats == [] then None
    else if ats[|ats| - 1].job == job then Some(ats[|ats| - 1])
    else LatestByJob(ats[..|ats| - 1], job)
  }

  /** The attempt records of a message. */
  function AttemptsOf(ats: seq<Attempt>, message: string): seq<Attempt> {
    if ats == [] then []
    else AttemptsOf(ats[..|ats| - 1], message) + (if ats[|ats| - 1].message == message then [ats[|ats| - 1]] else [])
  }

  function RepliesOf(rs: seq<Reply>, message: string): seq<Reply> {
    if rs == [] then []
    else RepliesOf(rs[..|rs| - 1], message) + (if rs[|rs| - 1].message == message then [rs[|rs| - 1]] else [])
  }

  /** The latest record of each attempt of a message, by attempt id. */
  function LatestAttempts(ats: seq<Attempt>): (m: map<string, Attempt>)
    ensures forall id :: id in m <==> LatestAttempt(ats, id).Some?
    ensures forall id :: id in m ==> LatestAttempt(ats, id) == Some(m[id])
  {
    if ats == [] then map[]
    else LatestAttempts(ats[..|ats| - 1])[ats[|ats| - 1].id := ats[|ats| - 1]]
  }

  // ----- the state of a message -------------------------------------------------------------

  /** A single status decides; a mixture is incomplete. */
  function ReplyTerminalState(statuses: set<ReplyStatus>): MessageState {
    if statuses == {ReplyCompleted} then Completed
    else if statuses == {ReplyCancelled} then Cancelled
    else if statuses == {ReplyFailed} then Failed
    else Incomplete
  }

  function AttemptTerminalState(states: set<AttemptState>): MessageState {
    if states == {AttemptCompleted} then Completed
    else if states == {AttemptCancelled} then Cancelled
    else if states == {AttemptFailed} then Failed
    else Incomplete
  }

  /** Replies that are not notices, or all replies when there are only notices. */
  function CountedReplies(rs: seq<Reply>): set<ReplyStatus> {
    var answers := set r | r in rs && !r.notice :: r.status;
    if answers != {} then answers else set r | r in rs :: r.status
  }

  function NextState(attempts: map<string, Attempt>, replies: seq<Reply>): MessageState {
    if exists id :: id in attempts && !Over(attempts[id].state) then
      if replies != [] then PartiallyReplied else Running
    else if CountedReplies(replies) != {} then ReplyTerminalState(CountedReplies(replies))
    else AttemptTerminalState(set id | id in attempts :: attempts[id].state)
  }

  function WithState(l: Logs, id: string, s: MessageState): (l': Logs)
    ensures l'.attempts == l.attempts && l'.replies == l.replies
  {
    var m := LatestMessage(l.messages, id);
    if m.None? || m.value.state == s then l else l.(messages := l.messages + [m.value.(state := s)])
  }

  function Refreshed(l: Logs, id: string): (l': Logs)
    ensures l'.attempts == l.attempts && l'.replies == l.replies
  {
    var attempts := LatestAttempts(AttemptsOf(l.attempts, id));
    if LatestMessage(l.messages, id).None? || attempts == map[] then l
    else WithState(l, id, NextState(attempts, RepliesOf(l.replies, id)))
  }

  // ----- what can be recorded ------------------------------------------------------------------

  function AttemptStateFor(s: JobStatus): AttemptState {
    match s
    case JobCompleted => AttemptCompleted
    case JobFailed => AttemptFailed
    case JobCancelled => AttemptCancelled
    case _ => AttemptIncomplete
  }

  function ReplyStatusFor(s: JobStatus): ReplyStatus {
    match s
    case JobCompleted => ReplyCompleted
    case JobFailed => ReplyFailed
    case JobCancelled => ReplyCancelled
    case _ => ReplyIncomplete
  }

  datatype Event =
    | Submit(message: string, origin: Option<string>, jobs: seq<Job>, attemptIds: seq<string>)
    | Start(job: string)
    | Finish(job: string, jobStatus: JobStatus)
    | Answer(job: string, jobStatus: JobStatus)
    | Notify(job: string, status: ReplyStatus, notice: bool)
    | Conclude(job: string, jobStatus: JobStatus, reply: bool)
    | Retry(message: string, newJob: Job, attemptId: string)
    | SetState(message: string, state: MessageState)

  function AgentsOf(jobs: seq<Job>): seq<string> {
    seq(|jobs|, i requires 0 <= i < |jobs| => jobs[i].agent)
  }

  function FirstAttempts(message: string, jobs: seq<Job>, ids: seq<string>): (r: seq<Attempt>)
    requires |jobs| == |ids|
    ensures |r| == |jobs|
  {
    seq(|jobs|, i requires 0 <= i < |jobs| => Attempt(ids[i], message, jobs[i].agent, jobs[i].id, 0, AttemptPending))
  }

  /** One more than the highest retry index of the agent among the message's attempts. */
  function NextRetryIndex(ats: seq<Attempt>, agent: string): (k: int)
    ensures k >= 0
    ensures forall a :: a in ats && a.agent == agent ==> a.retryIndex < k
    ensures k > 0 ==> exists a :: a in ats && a.agent == agent && a.retryIndex == k - 1
  {
    if ats == [] then 0
    else
      var k, a := NextRetryIndex(ats[..|ats| - 1], agent), ats[|ats| - 1];
      if a.agent == agent && a.retryIndex + 1 > k then a.retryIndex + 1 else k
  }

  /** The fresh ids that the generator hands out, one per job. */
  ghost predicate Legal(l: Logs, e: Event) {
    match e
    case Submit(m, _, jobs, ids) =>
      && |jobs| == |ids| && LatestMessage(l.messages, m).None?
      && (forall i :: 0 <= i < |ids| ==> LatestAttempt(l.attempts, ids[i]).None?)
      && (forall i, j :: 0 <= i < j < |ids| ==> ids[i] != ids[j])
    case Retry(_, _, id) => LatestAttempt(l.attempts, id).None?
    case _ => true
  }

  function Moved(l: Logs, a: Attempt, s: AttemptState): Logs {
    l.(attempts := l.attempts + [a.(state := s)])
  }

  function Finished(l: Logs, job: string, status: JobStatus): Logs {
    var a := LatestByJob(l.attempts, job);
    if a.None? then l else Refreshed(Moved(l, a.value, AttemptStateFor(status)), a.value.message)
  }

  function Replied(l: Logs, job: string, status: ReplyStatus, notice: bool): Logs {
    var a := LatestByJob(l.attempts, job);
    if a.None? then l
    else Refreshed(l.(replies := l.replies + [Reply(a.value.message, a.value.id, status, notice)]), a.value.message)
  }

  function Concluded(l: Logs, job: string, status: JobStatus, reply: bool): Logs {
    var l' := Finished(l, job, status);
    if reply then Replied(l', job, ReplyStatusFor(status), false) else l'
  }

  /** The logs after recording an event; `None` when the call raises. */
  ghost function Do(l: Logs, e: Event): Option<Logs>
    requires Legal(l, e)
  {
    match e
    case Submit(m, origin, jobs, ids) =>
      if jobs == [] then Some(l)
      else
        Some(l.(messages := l.messages + [Message(m, origin, AgentsOf(jobs), Queued)],
                attempts := l.attempts + FirstAttempts(m, jobs, ids)))
    case Start(job) =>
      var a := LatestByJob(l.attempts, job);
      if a.None? then Some(l) else Some(WithState(Moved(l, a.value, AttemptRunning), a.value.message, Running))
    case Finish(job, status) => Some(Finished(l, job, status))
    case Answer(job, status) => Some(Replied(l, job, ReplyStatusFor(status), false))
    case Notify(job, status, notice) => Some(Replied(l, job, status, notice))
    case Conclude(job, status, reply) =>
      Some(Concluded(l, job, status, reply))
    case Retry(m, job, id) =>
      if LatestMessage(l.messages, m).None? then None
      else
        var index := NextRetryIndex(AttemptsOf(l.attempts, m), job.agent);
        Some(WithState(l.(attempts := l.attempts + [Attempt(id, m, job.agent, job.id, index, AttemptPending)]), m, Queued))
    case SetState(m, state) => Some(WithState(l, m, state))
  }

  // ----- consistency -------------------------------------------------------------------------------

  /** Every attempt of the message has a terminal latest record. */
  ghost predicate AllOver(ats: seq<Attempt>, message: string) {
    forall a :: a in ats && a.message == message ==> Over(LatestAttempt(ats, a.id).value.state)
  }

  ghost predicate Linked(l: Logs) {
    && (forall a :: a in l.attempts ==> LatestMessage(l.messages, a.message).Some?)
    && (forall a, b :: a in l.attempts && b in l.attempts && a.id == b.id ==> a.message == b.message)
    && (forall m :: m in l.messages ==> exists a :: a in l.attempts && a.message == m.id)
  }

  /** The latest state of the message is terminal exactly when all its attempts are over. */
  ghost predicate Truthful(l: Logs, message: string) {
    LatestMessage(l.messages, message).Some? ==>
      (Settled(LatestMessage(l.messages, message).value.state) <==> AllOver(l.attempts, message))
  }

  ghost predicate Consistent(l: Logs) {
    Linked(l) && forall m :: Truthful(l, m)
  }

  lemma LatestAttemptSnoc(ats: seq<Attempt>, a: Attempt, id: string)
    ensures LatestAttempt(ats + [a], id) == if a.id == id then Some(a) else LatestAttempt(ats, id)
  {
    assert (ats + [a])[..|ats|] == ats;
  }

  lemma LatestMessageSnoc(ms: seq<Message>, m: Message, id: string)
    ensures LatestMessage(ms + [m], id) == if m.id == id then Some(m) else LatestMessage(ms, id)
  {
    assert (ms + [m])[..|ms|] == ms;
  }

  /** Grouping only the records of one message finds the same latest records. */
  lemma {:induction false} LatestWithinMessage(ats: seq<Attempt>, message: string, id: string)
    requires forall a :: a in ats && a.id == id ==> a.message == message
    ensures LatestAttempt(AttemptsOf(ats, message), id) == LatestAttempt(ats, id)
  {
    if ats != [] {
      var init, last := ats[..|ats| - 1], ats[|ats| - 1];
      assert last in ats;
      LatestWithinMessage(init, message, id);
      if last.message == message {
        LatestAttemptSnoc(AttemptsOf(init, message), last, id);
      } else {
        assert AttemptsOf(ats, message) == AttemptsOf(init, message);
      }
    }
  }

  lemma {:induction false} AttemptsOfMember(ats: seq<Attempt>, message: string, a: Attempt)
    ensures a in AttemptsOf(ats, message) <==> a in ats && a.message == message
  {
    if ats != [] {
      var init, last := ats[..|ats| - 1], ats[|ats| - 1];
      AttemptsOfMember(init, message, a);
      assert ats == init + [last];
    }
  }

  lemma LatestOfOwnAttempt(l: Logs, a: Attempt)
    requires Linked(l) && a in l.attempts
    ensures LatestAttempt(AttemptsOf(l.attempts, a.message), a.id) == LatestAttempt(l.attempts, a.id)
    ensures LatestAttempt(l.attempts, a.id).Some?
  {
    LatestWithinMessage(l.attempts, a.message, a.id);
  }

  lemma GroupedIsOver(l: Logs, message: string, id: string)
    requires Linked(l) && AllOver(l.attempts, message)
    requires LatestAttempt(AttemptsOf(l.attempts, message), id).Some?
    ensures Over(LatestAttempt(AttemptsOf(l.attempts, message), id).value.state)
  {
    var a := LatestAttempt(AttemptsOf(l.attempts, message), id).value;
    AttemptsOfMember(l.attempts, message, a);
    LatestOfOwnAttempt(l, a);
  }

  lemma OwnIsGrouped(l: Logs, a: Attempt)
    requires Linked(l) && a in l.attempts
    ensures a.id in LatestAttempts(AttemptsOf(l.attempts, a.message))
    ensures LatestAttempt(l.attempts, a.id) == Some(LatestAttempts(AttemptsOf(l.attempts, a.message))[a.id])
  {
    LatestOfOwnAttempt(l, a);
  }

  /** All attempts of a message are over exactly when no grouped latest record is active. */
  lemma OverIffNoneActive(l: Logs, message: string, attempts: map<string, Attempt>)
    requires Linked(l) && attempts == LatestAttempts(AttemptsOf(l.attempts, message))
    ensures AllOver(l.attempts, message) <==> forall id :: id in attempts ==> Over(attempts[id].state)
  {
    if AllOver(l.attempts, message) {
      forall id | id in attempts ensures Over(attempts[id].state) {
        GroupedIsOver(l, message, id);
      }
    }
    if forall id :: id in attempts ==> Over(attempts[id].state) {
      forall a | a in l.attempts && a.message == message ensures Over(LatestAttempt(l.attempts, a.id).value.state) {
        OwnIsGrouped(l, a);
      }
    }
  }

  lemma NextStateSettled(attempts: map<string, Attempt>, replies: seq<Reply>)
    ensures Settled(NextState(attempts, replies)) <==> forall id :: id in attempts ==> Over(attempts[id].state)
  {
  }

  /** Setting one message's state leaves every other message alone. */
  lemma WithStateFrame(l: Logs, id: string, s: MessageState)
    requires Linked(l)
    ensures var l' := WithState(l, id, s);
            && Linked(l') && l'.attempts == l.attempts && l'.replies == l.replies
            && (forall m :: m != id ==> LatestMessage(l'.messages, m) == LatestMessage(l.messages, m))
            && (LatestMessage(l.messages, id).Some? ==>
                  LatestMessage(l'.messages, id) == Some(LatestMessage(l.messages, id).value.(state := s)))
  {
    var m := LatestMessage(l.messages, id);
    if m.Some? && m.value.state != s {
      var m' := m.value.(state := s);
      forall i ensures LatestMessage(l.messages + [m'], i) == if i == id then Some(m') else LatestMessage(l.messages, i) {
        LatestMessageSnoc(l.messages, m', i);
      }
    }
  }

  /** The other messages of `l` and `l'` have the same records. */
  ghost predicate SameElsewhere(l: Logs, l': Logs, message: string) {
    && (forall m :: m != message ==> LatestMessage(l'.messages, m) == LatestMessage(l.messages, m))
    && (forall m :: m != message ==> (AllOver(l'.attempts, m) <==> AllOver(l.attempts, m)))
  }

  lemma HasAttempts(l: Logs, message: string)
    requires Linked(l) && LatestMessage(l.messages, message).Some?
    ensures LatestAttempts(AttemptsOf(l.attempts, message)) != map[]
  {
    var m := LatestMessage(l.messages, message).value;
    var a :| a in l.attempts && a.message == m.id;
    var own := AttemptsOf(l.attempts, message);
    AttemptsOfMember(l.attempts, message, a);
    assert LatestAttempt(own, a.id).Some?;
    assert a.id in LatestAttempts(own);
  }

  lemma RefreshIsTruthful(l: Logs, message: string)
    requires Linked(l)
    ensures Linked(Refreshed(l, message)) && SameElsewhere(l, Refreshed(l, message), message)
    ensures Refreshed(l, message).attempts == l.attempts && Truthful(Refreshed(l, message), message)
  {
    if LatestMessage(l.messages, message).Some? {
      HasAttempts(l, message);
      var attempts, replies := LatestAttempts(AttemptsOf(l.attempts, message)), RepliesOf(l.replies, message);
      assert Settled(NextState(attempts, replies)) <==> AllOver(l.attempts, message) by {
        OverIffNoneActive(l, message, attempts);
        NextStateSettled(attempts, replies);
      }
      WithStateFrame(l, message, NextState(attempts, replies));
    }
  }

  lemma AppendKeepsLinked(l: Logs, a: Attempt)
    requires Linked(l) && LatestMessage(l.messages, a.message).Some?
    requires forall b :: b in l.attempts && b.id == a.id ==> b.message == a.message
    ensures Linked(l.(attempts := l.attempts + [a]))
  {
    var more := l.attempts + [a];
    assert forall b :: b in more <==> b in l.attempts || b == a;
    forall m | m in l.messages ensures exists b :: b in more && b.message == m.id {
      var b :| b in l.attempts && b.message == m.id;
      assert b in more;
    }
  }

  lemma AppendElsewhere(ats: seq<Attempt>, a: Attempt, m: string)
    requires forall b :: b in ats && b.id == a.id ==> b.message == a.message
    requires m != a.message
    ensures AllOver(ats + [a], m) <==> AllOver(ats, m)
  {
    forall b | b in ats && b.message == m
      ensures b in ats + [a] && LatestAttempt(ats + [a], b.id) == LatestAttempt(ats, b.id)
    {
      LatestAttemptSnoc(ats, a, b.id);
    }
  }

  /** Appending a record of an attempt of `message`, old or with a fresh id. */
  lemma AppendAttempt(l: Logs, a: Attempt)
    requires Linked(l) && LatestMessage(l.messages, a.message).Some?
    requires forall b :: b in l.attempts && b.id == a.id ==> b.message == a.message
    ensures var l' := l.(attempts := l.attempts + [a]);
            && Linked(l') && SameElsewhere(l, l', a.message)
            && (!Over(a.state) ==> !AllOver(l'.attempts, a.message))
  {
    AppendKeepsLinked(l, a);
    forall m | m != a.message ensures AllOver(l.attempts + [a], m) <==> AllOver(l.attempts, m) {
      AppendElsewhere(l.attempts, a, m);
    }
    LatestAttemptSnoc(l.attempts, a, a.id);
    assert a in l.attempts + [a];
  }

  /** `l'` tells the truth about `message` and has the same records as `l` for all others. */
  ghost predicate Renews(l: Logs, l': Logs, message: string) {
    Linked(l') && SameElsewhere(l, l', message) && Truthful(l', message) && LatestMessage(l'.messages, message).Some?
  }

  lemma StartRenews(l: Logs, a: Attempt, ms: MessageState)
    requires Linked(l) && LatestMessage(l.messages, a.message).Some?
    requires forall b :: b in l.attempts && b.id == a.id ==> b.message == a.message
    requires !Over(a.state) && !Settled(ms)
    ensures Renews(l, WithState(l.(attempts := l.attempts + [a]), a.message, ms), a.message)
  {
    var l1 := l.(attempts := l.attempts + [a]);
    AppendAttempt(l, a);
    WithStateFrame(l1, a.message, ms);
  }

  lemma RefreshKeepsMessage(l: Logs, message: string)
    requires Linked(l) && LatestMessage(l.messages, message).Some?
    ensures LatestMessage(Refreshed(l, message).messages, message).Some?
  {
    var attempts := LatestAttempts(AttemptsOf(l.attempts, message));
    WithStateFrame(l, message, NextState(attempts, RepliesOf(l.replies, message)));
  }

  lemma FinishRenews(l: Logs, job: string, status: JobStatus)
    requires Linked(l) && LatestByJob(l.attempts, job).Some?
    ensures Renews(l, Finished(l, job, status), LatestByJob(l.attempts, job).value.message)
    ensures LatestByJob(Finished(l, job, status).attempts, job).Some?
    ensures LatestByJob(Finished(l, job, status).attempts, job).value.message == LatestByJob(l.attempts, job).value.message
  {
    var b := LatestByJob(l.attempts, job).value.(state := AttemptStateFor(status));
    AppendAttempt(l, b);
    var l1 := l.(attempts := l.attempts + [b]);
    RefreshIsTruthful(l1, b.message);
    RefreshKeepsMessage(l1, b.message);
  }

  lemma ReplyRenews(l: Logs, job: string, status: ReplyStatus, notice: bool)
    requires Linked(l) && LatestByJob(l.attempts, job).Some?
    ensures Renews(l, Replied(l, job, status, notice), LatestByJob(l.attempts, job).value.message)
  {
    var a := LatestByJob(l.attempts, job).value;
    var l1 := l.(replies := l.replies + [Reply(a.message, a.id, status, notice)]);
    RefreshIsTruthful(l1, a.message);
    RefreshKeepsMessage(l1, a.message);
  }

  lemma ConcludeRenews(l: Logs, job: string, status: JobStatus, reply: bool)
    requires Linked(l) && LatestByJob(l.attempts, job).Some?
    ensures Renews(l, Concluded(l, job, status, reply), LatestByJob(l.attempts, job).value.message)
  {
    FinishRenews(l, job, status);
    if reply {
      ReplyRenews(Finished(l, job, status), job, ReplyStatusFor(status), false);
    }
  }

  lemma {:induction false} LatestAttemptConcat(ats: seq<Attempt>, more: seq<Attempt>, id: string)
    ensures LatestAttempt(ats + more, id)
         == if LatestAttempt(more, id).Some? then LatestAttempt(more, id) else LatestAttempt(ats, id)
    decreases |more|
  {
    if more == [] {
      assert ats + more == ats;
    } else {
      assert (ats + more)[..|ats + more| - 1] == ats + more[..|more| - 1];
      LatestAttemptConcat(ats, more[..|more| - 1], id);
    }
  }

  lemma SubmitRenews(l: Logs, m: Message, more: seq<Attempt>)
    requires Linked(l) && LatestMessage(l.messages, m.id).None? && !Settled(m.state)
    requires more != [] && forall a :: a in more ==> a.message == m.id && !Over(a.state) && LatestAttempt(l.attempts, a.id).None?
    ensures Renews(l, Logs(l.messages + [m], l.attempts + more, l.replies), m.id)
  {
    var l' := Logs(l.messages + [m], l.attempts + more, l.replies);
    forall id ensures LatestMessage(l'.messages, id) == if id == m.id then Some(m) else LatestMessage(l.messages, id) {
      LatestMessageSnoc(l.messages, m, id);
    }
    forall id ensures LatestAttempt(l'.attempts, id)
                   == if LatestAttempt(more, id).Some? then LatestAttempt(more, id) else LatestAttempt(l.attempts, id)
    {
      LatestAttemptConcat(l.attempts, more, id);
    }
    assert more[0] in more && more[0] in l'.attempts;
    assert !Over(LatestAttempt(l'.attempts, more[0].id).value.state);
    forall n | n != m.id ensures AllOver(l'.attempts, n) <==> AllOver(l.attempts, n) {
      forall b | b in l.attempts ensures LatestAttempt(l'.attempts, b.id) == LatestAttempt(l.attempts, b.id) {
        assert LatestAttempt(more, b.id).None?;
      }
    }
    forall n | n in l'.messages ensures exists b :: b in l'.attempts && b.message == n.id {
      if n in l.messages {
        var b :| b in l.attempts && b.message == n.id;
        assert b in l'.attempts;
      }
    }
    assert Linked(l');
  }

  // ----- what an event does ----------------------------------------------------------------------------

  /** The message whose records an event writes. */
  function Concerned(l: Logs, e: Event): Option<string> {
    match e
    case Submit(m, _, jobs, _) => if jobs == [] then None else Some(m)
    case Retry(m, _, _) => if LatestMessage(l.messages, m).None? then None else Some(m)
    case SetState(m, _) => if LatestMessage(l.messages, m).None? then None else Some(m)
    case _ =>
      var a := LatestByJob(l.attempts, e.job);
      if a.None? then None else Some(a.value.message)
  }

  /** A state set directly is terminal exactly when the attempts are all over. */
  ghost predicate Fits(l: Logs, e: Event)
    requires e.SetState?
  {
    Settled(e.state) <==> AllOver(l.attempts, e.message)
  }

  ghost function Done(l: Logs, e: Event): Logs
    requires Legal(l, e)
  {
    if Do(l, e).Some? then Do(l, e).value else l
  }

  lemma NewAttemptRenews(l: Logs, a: Attempt)
    requires Linked(l) && LatestMessage(l.messages, a.message).Some?
    requires LatestAttempt(l.attempts, a.id).None? && a.state == AttemptPending
    ensures Renews(l, WithState(l.(attempts := l.attempts + [a]), a.message, Queued), a.message)
  {
    StartRenews(l, a, Queued);
  }

  lemma RetryIs(l: Logs, a: Attempt, job: Job)
    requires Legal(l, Retry(a.message, job, a.id)) && LatestMessage(l.messages, a.message).Some?
    requires a == Attempt(a.id, a.message, job.agent, job.id, NextRetryIndex(AttemptsOf(l.attempts, a.message), job.agent), AttemptPending)
    ensures Do(l, Retry(a.message, job, a.id)).value == WithState(l.(attempts := l.attempts + [a]), a.message, Queued)
  {
  }

  lemma RetryRenews(l: Logs, m: string, job: Job, id: string)
    requires Linked(l) && Legal(l, Retry(m, job, id)) && LatestMessage(l.messages, m).Some?
    ensures Renews(l, Do(l, Retry(m, job, id)).value, m)
  {
    var a := Attempt(id, m, job.agent, job.id, NextRetryIndex(AttemptsOf(l.attempts, m), job.agent), AttemptPending);
    NewAttemptRenews(l, a);
    RetryIs(l, a, job);
  }

  lemma StartEventRenews(l: Logs, job: string)
    requires Linked(l) && LatestByJob(l.attempts, job).Some?
    ensures Renews(l, Done(l, Start(job)), LatestByJob(l.attempts, job).value.message)
  {
    StartRenews(l, LatestByJob(l.attempts, job).value.(state := AttemptRunning), Running);
  }

  lemma SubmitEventRenews(l: Logs, e: Event)
    requires Linked(l) && Legal(l, e) && e.Submit? && e.jobs != []
    ensures Renews(l, Done(l, e), e.message)
  {
    SubmitRenews(l, Message(e.message, e.origin, AgentsOf(e.jobs), Queued), FirstAttempts(e.message, e.jobs, e.attemptIds));
  }

  /** Recording an event makes the message it concerns truthful and touches no other. */
  lemma RecordingRenews(l: Logs, e: Event)
    requires Linked(l) && Legal(l, e) && !e.SetState?
    ensures Concerned(l, e).None? ==> Done(l, e) == l
    ensures Concerned(l, e).Some? ==> Renews(l, Done(l, e), Concerned(l, e).value)
  {
    if Concerned(l, e).Some? {
      match e {
        case Submit(_, _, _, _) => SubmitEventRenews(l, e);
        case Start(job) => StartEventRenews(l, job);
        case Finish(job, status) => FinishRenews(l, job, status);
        case Answer(job, status) => ReplyRenews(l, job, ReplyStatusFor(status), false);
        case Notify(job, status, notice) => ReplyRenews(l, job, status, notice);
        case Conclude(job, status, reply) => ConcludeRenews(l, job, status, reply);
        case Retry(m, job, id) => RetryRenews(l, m, job, id);
      }
    }
  }

  /** Setting a state directly makes the message truthful exactly when the state fits. */
  lemma SettingRenewsIff(l: Logs, l': Logs, message: string, state: MessageState)
    requires Linked(l) && LatestMessage(l.messages, message).Some? && l' == WithState(l, message, state)
    ensures Linked(l') && SameElsewhere(l, l', message) && LatestMessage(l'.messages, message).Some?
    ensures Truthful(l', message) <==> (Settled(state) <==> AllOver(l.attempts, message))
  {
    WithStateFrame(l, message, state);
  }

  /** The truth about a message after a change to the records of one message. */
  lemma TruthElsewhere(l: Logs, l': Logs, concerned: string, message: string)
    requires SameElsewhere(l, l', concerned) && message != concerned
    ensures Truthful(l', message) <==> Truthful(l, message)
  {
  }

  lemma ConsistentIff(l: Logs, l': Logs, message: string)
    requires Consistent(l) && Linked(l') && SameElsewhere(l, l', message)
    ensures Consistent(l') <==> Truthful(l', message)
  {
    if Truthful(l', message) {
      forall m ensures Truthful(l', m) {
        assert Truthful(l, m);
        if m != message {
          TruthElsewhere(l, l', message, m);
        }
      }
    }
  }

  /** Every recorded event keeps the logs consistent. */
  lemma EventKeepsConsistent(l: Logs, e: Event)
    requires Consistent(l) && Legal(l, e) && !e.SetState?
    ensures Consistent(Done(l, e))
  {
    RecordingRenews(l, e);
    if Concerned(l, e).Some? {
      ConsistentIff(l, Done(l, e), Concerned(l, e).value);
    }
  }

  // ----- runs ----------------------------------------------------------------------------------------

  ghost predicate LegalRun(events: seq<Event>)
    decreases |events|, 0
  {
    events == [] || (LegalRun(events[..|events| - 1]) && Legal(Run(events[..|events| - 1]), events[|events| - 1]))
  }

  /** The logs after a run; a call that raises has written nothing. */
  ghost function Run(events: seq<Event>): Logs
    requires LegalRun(events)
    decreases |events|, 1
  {
    if events == [] then Logs([], [], [])
    else
      var before := Run(events[..|events| - 1]);
      var after := Do(before, events[|events| - 1]);
      if after.Some? then after.value else before
  }

  /** The last event that concerned the message set a state that did not fit. */
  ghost predicate Misled(events: seq<Event>, message: string)
    requires LegalRun(events)
  {
    if events == [] then false
    else
      var init, e := events[..|events| - 1], events[|events| - 1];
      if Concerned(Run(init), e) == Some(message) then e.SetState? && !Fits(Run(init), e) else Misled(init, message)
  }

  lemma EventEffect(l: Logs, e: Event, message: string)
    requires Linked(l) && Legal(l, e)
    ensures Linked(Done(l, e))
    ensures Truthful(Done(l, e), message)
       <==> if Concerned(l, e) == Some(message) then !e.SetState? || Fits(l, e) else Truthful(l, message)
  {
    var concerned, l' := Concerned(l, e), Done(l, e);
    if !e.SetState? {
      RecordingRenews(l, e);
    } else if concerned.Some? {
      SettingRenewsIff(l, l', e.message, e.state);
    }
    if concerned.Some? && concerned != Some(message) {
      TruthElsewhere(l, l', concerned.value, message);
    }
  }

  /** In every run, direct settings included, a message's latest state is terminal exactly when the latest
      record of each of its attempts is, if and only if the last event that concerned the message was not
      a setting that did not fit. */
  lemma {:induction false} TruthfulUnlessMisled(events: seq<Event>, message: string)
    requires LegalRun(events)
    ensures Linked(Run(events)) && (Truthful(Run(events), message) <==> !Misled(events, message))
  {
    if events != [] {
      var init, e := events[..|events| - 1], events[|events| - 1];
      TruthfulUnlessMisled(init, message);
      EventEffect(Run(init), e, message);
    }
  }

  lemma {:induction false} RecordingNeverMisleads(events: seq<Event>, message: string)
    requires LegalRun(events) && forall i :: 0 <= i < |events| ==> !events[i].SetState?
    ensures !Misled(events, message)
  {
    if events != [] {
      RecordingNeverMisleads(events[..|events| - 1], message);
    }
  }

  /** In every run of recording calls, for every message, the latest state is terminal exactly when the
      latest record of each of its attempts is. */
  lemma RunIsConsistent(events: seq<Event>)
    requires LegalRun(events) && forall i :: 0 <= i < |events| ==> !events[i].SetState?
    ensures Consistent(Run(events))
  {
    TruthfulUnlessMisled(events, "");
    forall m ensures Truthful(Run(events), m) {
      TruthfulUnlessMisled(events, m);
      RecordingNeverMisleads(events, m);
    }
  }

  /** The state setter keeps consistency exactly when the state it is given fits. */
  lemma SetStateKeepsIff(l: Logs, id: string, s: MessageState)
    requires Consistent(l) && LatestMessage(l.messages, id).Some?
    ensures Consistent(WithState(l, id, s)) <==> (Settled(s) <==> AllOver(l.attempts, id))
  {
    var l' := WithState(l, id, s);
    SettingRenewsIff(l, l', id, s);
    ConsistentIff(l, l', id);
  }

  lemma RunNext(events: seq<Event>, e: Event)
    requires LegalRun(events) && Legal(Run(events), e)
    ensures LegalRun(events + [e]) && Run(events + [e]) == Done(Run(events), e)
    ensures forall m :: Misled(events + [e], m)
                   <==> if Concerned(Run(events), e) == Some(m) then e.SetState? && !Fits(Run(events), e) else Misled(events, m)
  {
    assert (events + [e])[..|events|] == events;
  }

  lemma OneAttemptOver(l: Logs, a: Attempt, over: Attempt)
    requires l.attempts == [a] + [over] && a.id == over.id && Over(over.state)
    ensures AllOver(l.attempts, a.message)
  {
    LatestAttemptSnoc([a], over, a.id);
  }

  lemma SubmittedLogs(e: Event, a: Attempt)
    requires e == Submit("m", None, [Job("j", "a")], ["t"]) && a == Attempt("t", "m", "a", "j", 0, AttemptPending)
    ensures Legal(Logs([], [], []), e)
    ensures Done(Logs([], [], []), e) == Logs([Message("m", None, ["a"], Queued)], [a], [])
  {
    assert FirstAttempts("m", [Job("j", "a")], ["t"]) == [a] && AgentsOf([Job("j", "a")]) == ["a"];
  }

  lemma FinishedAttempts(l: Logs, a: Attempt, job: string)
    requires l.attempts == [a] && a.job == job
    ensures Done(l, Finish(job, JobCompleted)).attempts == [a] + [a.(state := AttemptCompleted)]
  {
    assert LatestByJob([a], job) == Some(a);
  }

  lemma UnfittingMisleads(events: seq<Event>, e: Event)
    requires LegalRun(events) && e.SetState? && Concerned(Run(events), e).Some? && !Fits(Run(events), e)
    ensures LegalRun(events + [e]) && Misled(events + [e], e.message) && !Consistent(Run(events + [e]))
  {
    RunNext(events, e);
    TruthfulUnlessMisled(events + [e], e.message);
    assert !Truthful(Run(events + [e]), e.message);
  }

  lemma FinishedRun(a: Attempt) returns (events: seq<Event>)
    requires a == Attempt("t", "m", "a", "j", 0, AttemptPending)
    ensures LegalRun(events) && Run(events).attempts == [a] + [a.(state := AttemptCompleted)]
  {
    var submit, finish := Submit("m", None, [Job("j", "a")], ["t"]), Finish("j", JobCompleted);
    SubmittedLogs(submit, a);
    RunNext([], submit);
    var one := [] + [submit];
    FinishedAttempts(Run(one), a, "j");
    RunNext(one, finish);
    events := one + [finish];
  }

  lemma RunningAgainMisleads(events: seq<Event>, a: Attempt)
    requires LegalRun(events) && Run(events).attempts == [a] + [a.(state := AttemptCompleted)]
    ensures LegalRun(events + [SetState(a.message, Running)])
    ensures Misled(events + [SetState(a.message, Running)], a.message) && !Consistent(Run(events + [SetState(a.message, Running)]))
  {
    OneAttemptOver(Run(events), a, a.(state := AttemptCompleted));
    TruthfulUnlessMisled(events, a.message);
    assert Run(events).attempts[0] == a;
    UnfittingMisleads(events, SetState(a.message, Running));
  }

  /** A delegated parent: its only attempt completes, and its message is set to running again, as if the
      attempt were still active. */
  lemma DelegatedParentIsMisled()
    ensures exists events :: LegalRun(events) && Misled(events, "m") && !Consistent(Run(events))
  {
    var a := Attempt("t", "m", "a", "j", 0, AttemptPending);
    var events := FinishedRun(a);
    RunningAgainMisleads(events, a);
  }

  // ----- outcomes ---------------------------------------------------------------------------------

  lemma CountedAre(replies: seq<Reply>, status: ReplyStatus)
    requires replies != []
    ensures CountedReplies(replies) != {}
    ensures CountedReplies(replies) == {status} <==>
            if exists r :: r in replies && !r.notice
            then forall r :: r in replies && !r.notice ==> r.status == status
            else forall r :: r in replies ==> r.status == status
  {
    var answers := set r | r in replies && !r.notice :: r.status;
    var all := set r | r in replies :: r.status;
    assert replies[0] in replies && replies[0].status in all;
    assert forall r :: r in replies ==> r.status in all && (!r.notice ==> r.status in answers);
  }

  lemma AttemptsAre(attempts: map<string, Attempt>, state: AttemptState)
    requires attempts != map[]
    ensures (set id | id in attempts :: attempts[id].state) == {state}
            <==> forall id :: id in attempts ==> attempts[id].state == state
  {
    var states := set id | id in attempts :: attempts[id].state;
    var id :| id in attempts;
    assert attempts[id].state in states;
    assert forall i :: i in attempts ==> attempts[i].state in states;
  }

  ghost predicate NoneActive(attempts: map<string, Attempt>) { forall id :: id in attempts ==> Over(attempts[id].state) }

  /** Every reply that counts, or every attempt when there is no reply, says the same: replies that are no
      notices count, and notices if there are only those. */
  ghost predicate Unanimous(attempts: map<string, Attempt>, replies: seq<Reply>, reply: ReplyStatus, attempt: AttemptState) {
    if replies == [] then forall id :: id in attempts ==> attempts[id].state == attempt
    else if exists r :: r in replies && !r.notice then forall r :: r in replies && !r.notice ==> r.status == reply
    else forall r :: r in replies ==> r.status == reply
  }

  lemma UnanimousIs(attempts: map<string, Attempt>, replies: seq<Reply>, reply: ReplyStatus, attempt: AttemptState)
    requires attempts != map[]
    ensures Unanimous(attempts, replies, reply, attempt)
       <==> if CountedReplies(replies) != {} then CountedReplies(replies) == {reply}
            else (set id | id in attempts :: attempts[id].state) == {attempt}
  {
    if replies != [] {
      CountedAre(replies, reply);
    } else {
      AttemptsAre(attempts, attempt);
    }
  }

  /** A refreshed message is completed, failed or cancelled exactly when nothing is active and all say so, and
      incomplete when nothing is active and they do not agree; with something active it is running, or
      partially replied once there is a reply. */
  lemma OutcomeIsUnanimous(attempts: map<string, Attempt>, replies: seq<Reply>)
    requires attempts != map[]
    ensures var s, over := NextState(attempts, replies), NoneActive(attempts);
      && (s == Completed <==> over && Unanimous(attempts, replies, ReplyCompleted, AttemptCompleted))
      && (s == Failed <==> over && Unanimous(attempts, replies, ReplyFailed, AttemptFailed))
      && (s == Cancelled <==> over && Unanimous(attempts, replies, ReplyCancelled, AttemptCancelled))
      && (s == Incomplete <==> over && s != Completed && s != Failed && s != Cancelled)
      && (s == Running <==> !over && replies == []) && (s == PartiallyReplied <==> !over && replies != [])
  {
    UnanimousIs(attempts, replies, ReplyCompleted, AttemptCompleted);
    UnanimousIs(attempts, replies, ReplyFailed, AttemptFailed);
    UnanimousIs(attempts, replies, ReplyCancelled, AttemptCancelled);
  }

  /** Refreshing a known message records that state. */
  lemma RefreshedState(l: Logs, id: string)
    requires Linked(l) && LatestMessage(l.messages, id).Some?
    ensures LatestMessage(Refreshed(l, id).messages, id).Some?
    ensures LatestMessage(Refreshed(l, id).messages, id).value.state
         == NextState(LatestAttempts(AttemptsOf(l.attempts, id)), RepliesOf(l.replies, id))
  {
    HasAttempts(l, id);
    WithStateFrame(l, id, NextState(LatestAttempts(AttemptsOf(l.attempts, id)), RepliesOf(l.replies, id)));
  }

  /** What a job's end says about its attempt. */
  predicate Reports(s: JobStatus, a: AttemptState) {
    && (a == AttemptCompleted <==> s == JobCompleted) && (a == AttemptFailed <==> s == JobFailed)
    && (a == AttemptCancelled <==> s == JobCancelled)
    && (a == AttemptIncomplete <==> s != JobCompleted && s != JobFailed && s != JobCancelled)
  }

  /** What a job's end says in its reply. */
  predicate Answers(s: JobStatus, r: ReplyStatus) {
    && (r == ReplyCompleted <==> s == JobCompleted) && (r == ReplyFailed <==> s == JobFailed)
    && (r == ReplyCancelled <==> s == JobCancelled)
    && (r == ReplyIncomplete <==> s != JobCompleted && s != JobFailed && s != JobCancelled)
  }

  /** The latest record of the attempt reports the end of its job, and a reply, if there is one, answers so. */
  ghost predicate EndReported(l: Logs, after: Logs, a: Attempt, status: JobStatus, reply: bool) {
    && LatestAttempt(after.attempts, a.id).Some? && Reports(status, LatestAttempt(after.attempts, a.id).value.state)
    && (!reply ==> after.replies == l.replies)
    && (reply ==> |after.replies| == |l.replies| + 1 && after.replies[..|l.replies|] == l.replies
                  && var r := after.replies[|l.replies|];
                     r.message == a.message && r.attempt == a.id && !r.notice && Answers(status, r.status))
  }

  lemma ConclusionIsReported(l: Logs, job: string, status: JobStatus, reply: bool)
    requires LatestByJob(l.attempts, job).Some?
    ensures EndReported(l, Concluded(l, job, status, reply), LatestByJob(l.attempts, job).value, status, reply)
  {
    FinishReports(l, job, status);
    if reply {
      ReplyRecorded(Finished(l, job, status), job, ReplyStatusFor(status));
    }
  }

  /** After the end of a job is recorded, with or without a reply. */
  lemma EndIsReported(l: Logs, job: string, status: JobStatus, reply: bool)
    requires LatestByJob(l.attempts, job).Some?
    ensures EndReported(l, Done(l, Finish(job, status)), LatestByJob(l.attempts, job).value, status, false)
    ensures EndReported(l, Done(l, Conclude(job, status, reply)), LatestByJob(l.attempts, job).value, status, reply)
  {
    ConclusionIsReported(l, job, status, false);
    ConclusionIsReported(l, job, status, reply);
    assert Done(l, Finish(job, status)) == Concluded(l, job, status, false);
    assert Done(l, Conclude(job, status, reply)) == Concluded(l, job, status, reply);
  }

  lemma FinishReports(l: Logs, job: string, status: JobStatus)
    requires LatestByJob(l.attempts, job).Some?
    ensures var a, l1 := LatestByJob(l.attempts, job).value, Finished(l, job, status);
      && l1.replies == l.replies && LatestByJob(l1.attempts, job).Some?
      && LatestByJob(l1.attempts, job).value.id == a.id && LatestByJob(l1.attempts, job).value.message == a.message
      && LatestAttempt(l1.attempts, a.id).Some? && Reports(status, LatestAttempt(l1.attempts, a.id).value.state)
  {
    var a := LatestByJob(l.attempts, job).value;
    var b := a.(state := AttemptStateFor(status));
    LatestAttemptSnoc(l.attempts, b, a.id);
    assert LatestByJob(l.attempts + [b], job) == Some(b);
  }

  lemma ReplyRecorded(l: Logs, job: string, status: ReplyStatus)
    requires LatestByJob(l.attempts, job).Some?
    ensures var a, l1 := LatestByJob(l.attempts, job).value, Replied(l, job, status, false);
      l1.attempts == l.attempts && l1.replies == l.replies + [Reply(a.message, a.id, status, false)]
  {
  }

  // ----- retry indices ------------------------------------------------------------------------------------

  /** Message, agent and retry index identify an attempt. */
  ghost predicate RetryUnique(ats: seq<Attempt>) {
    forall a, b :: a in ats && b in ats && a.message == b.message && a.agent == b.agent && a.retryIndex == b.retryIndex
                   ==> a.id == b.id
  }

  /** A submission that names each agent once. */
  predicate OneJobPerAgent(e: Event) {
    e.Submit? ==> forall i, j :: 0 <= i < j < |e.jobs| ==> e.jobs[i].agent != e.jobs[j].agent
  }

  lemma CopyKeepsRetryUnique(ats: seq<Attempt>, a: Attempt, s: AttemptState)
    requires RetryUnique(ats) && a in ats
    ensures RetryUnique(ats + [a.(state := s)])
  {
  }

  lemma RetryIsNew(ats: seq<Attempt>, a: Attempt)
    requires RetryUnique(ats) && a.retryIndex == NextRetryIndex(AttemptsOf(ats, a.message), a.agent)
    ensures RetryUnique(ats + [a])
  {
    forall b | b in ats && b.message == a.message && b.agent == a.agent ensures b.retryIndex < a.retryIndex {
      AttemptsOfMember(ats, a.message, b);
    }
  }

  lemma SubmissionIsNew(l: Logs, e: Event)
    requires Linked(l) && RetryUnique(l.attempts) && e.Submit? && Legal(l, e) && OneJobPerAgent(e)
    ensures RetryUnique(l.attempts + FirstAttempts(e.message, e.jobs, e.attemptIds))
  {
    var more := FirstAttempts(e.message, e.jobs, e.attemptIds);
    forall a | a in l.attempts ensures a.message != e.message {
      assert LatestMessage(l.messages, a.message).Some?;
    }
    assert RetryUnique(more) by {
      assert forall i, j :: 0 <= i < j < |more| ==> more[i].agent != more[j].agent;
    }
    UniqueApart(l.attempts, more, e.message);
  }

  lemma UniqueApart(ats: seq<Attempt>, more: seq<Attempt>, message: string)
    requires RetryUnique(ats) && RetryUnique(more)
    requires (forall a :: a in ats ==> a.message != message) && forall a :: a in more ==> a.message == message
    ensures RetryUnique(ats + more)
  {
  }

  /** In every run, message, agent and retry index identify an attempt if and only if every submission
      names each agent once. */
  lemma {:induction false} RetryIndicesIdentifyIff(events: seq<Event>)
    requires LegalRun(events)
    ensures RetryUnique(Run(events).attempts) <==> EachOneJobPerAgent(events)
  {
    if events != [] {
      var init, e := events[..|events| - 1], events[|events| - 1];
      assert events == init + [e];
      RetryIndicesIdentifyIff(init);
      OneJobStep(init, e);
      assert RetryUnique(Run(events).attempts) <==> RetryUnique(Run(init).attempts) && OneJobPerAgent(e) by {
        TruthfulUnlessMisled(init, "");
        RetryStep(Run(init), e);
        RunNext(init, e);
      }
    }
  }

  ghost predicate EachOneJobPerAgent(events: seq<Event>) { forall i :: 0 <= i < |events| ==> OneJobPerAgent(events[i]) }

  lemma OneJobStep(init: seq<Event>, e: Event)
    ensures EachOneJobPerAgent(init + [e]) <==> EachOneJobPerAgent(init) && OneJobPerAgent(e)
  {
    var events := init + [e];
    assert events[|init|] == e && forall i :: 0 <= i < |init| ==> events[i] == init[i];
  }

  lemma RetryStep(l: Logs, e: Event)
    requires Linked(l) && Legal(l, e)
    ensures RetryUnique(Done(l, e).attempts) <==> RetryUnique(l.attempts) && OneJobPerAgent(e)
  {
    if !OneJobPerAgent(e) {
      RepeatedAgentIsAmbiguous(l, e);
    } else if RetryUnique(l.attempts) {
      EventKeepsRetryUnique(l, e);
    } else {
      AttemptsGrow(l, e);
      StaysAmbiguous(l.attempts, Done(l, e).attempts);
    }
  }

  lemma StaysAmbiguous(ats: seq<Attempt>, more: seq<Attempt>)
    requires !RetryUnique(ats) && ats <= more
    ensures !RetryUnique(more)
  {
    assert forall a :: a in ats ==> a in more;
  }

  lemma AttemptsGrow(l: Logs, e: Event)
    requires Legal(l, e)
    ensures l.attempts <= Done(l, e).attempts
  {
  }

  lemma RepeatedAgentIsAmbiguous(l: Logs, e: Event)
    requires Legal(l, e) && !OneJobPerAgent(e)
    ensures !RetryUnique(Done(l, e).attempts)
  {
    var i, j :| 0 <= i < j < |e.jobs| && e.jobs[i].agent == e.jobs[j].agent;
    var more := FirstAttempts(e.message, e.jobs, e.attemptIds);
    var ats := Done(l, e).attempts;
    assert ats == l.attempts + more;
    assert more[i] == ats[|l.attempts| + i] && more[j] == ats[|l.attempts| + j];
    assert more[i] in ats && more[j] in ats;
  }

  lemma EventKeepsRetryUnique(l: Logs, e: Event)
    requires Linked(l) && RetryUnique(l.attempts) && Legal(l, e) && OneJobPerAgent(e)
    ensures RetryUnique(Done(l, e).attempts)
  {
    match e {
      case Submit(m, origin, jobs, ids) => SubmissionIsNew(l, e);
      case Retry(m, job, id) =>
        RetryIsNew(l.attempts, Attempt(id, m, job.agent, job.id, NextRetryIndex(AttemptsOf(l.attempts, m), job.agent), AttemptPending));
      case Start(job) => MoveKeepsRetryUnique(l, job, AttemptRunning);
      case Finish(job, status) => MoveKeepsRetryUnique(l, job, AttemptStateFor(status));
      case Conclude(job, status, _) => MoveKeepsRetryUnique(l, job, AttemptStateFor(status));
      case Answer(_, _) =>
      case Notify(_, _, _) =>
      case SetState(_, _) =>
    }
  }

  lemma MoveKeepsRetryUnique(l: Logs, job: string, s: AttemptState)
    requires RetryUnique(l.attempts)
    ensures LatestByJob(l.attempts, job).Some? ==>
              RetryUnique(l.attempts + [LatestByJob(l.attempts, job).value.(state := s)])
  {
    if LatestByJob(l.attempts, job).Some? {
      CopyKeepsRetryUnique(l.attempts, LatestByJob(l.attempts, job).value, s);
    }
  }

  // ----- the service object ----------------------------------------------------------------------------------

  class Bureau {
    var messages: seq<Message>
    var attempts: seq<Attempt>
    var replies: seq<Reply>

    constructor ()
      ensures State() == Logs([], [], [])
    {
      messages, attempts, replies := [], [], [];
    }

    function State(): Logs
      reads this
    {
      Logs(messages, attempts, replies)
    }

    method LatestAttemptsFor(message: string) returns (latest: map<string, Attempt>)
      ensures latest == LatestAttempts(AttemptsOf(attempts, message))
    {
      latest := map[];
      var own := AttemptsOf(attempts, message);
      for i := 0 to |own|
        invariant latest == LatestAttempts(own[..i])
      {
        assert own[..i + 1][..i] == own[..i];
        latest := latest[own[i].id := own[i]];
      }
      assert own[..|own|] == own;
    }

    method RetryIndexFor(message: string, agent: string) returns (k: int)
      ensures k == NextRetryIndex(AttemptsOf(attempts, message), agent)
    {
      var latest := -1;
      var own := AttemptsOf(attempts, message);
      for i := 0 to |own|
        invariant latest + 1 == NextRetryIndex(own[..i], agent)
      {
        assert own[..i + 1][..i] == own[..i];
        if own[i].agent != agent { continue; }
        latest := if own[i].retryIndex > latest then own[i].retryIndex else latest;
      }
      assert own[..|own|] == own;
      return latest + 1;
    }

    method SetMessageState(id: string, s: MessageState)
      modifies this`messages
      ensures State() == WithState(old(State()), id, s)
      ensures LatestMessage(old(messages), id).None? ==> messages == old(messages)
      ensures LatestMessage(old(messages), id).Some? ==>
                LatestMessage(messages, id) == Some(LatestMessage(old(messages), id).value.(state := s))
    {
      var current := LatestMessage(messages, id);
      if current.None? || current.value.state == s { return; }
      LatestMessageSnoc(messages, current.value.(state := s), id);
      messages := messages + [current.value.(state := s)];
    }

    method RefreshMessageState(id: string)
      modifies this`messages
      ensures State() == Refreshed(old(State()), id)
    {
      if LatestMessage(messages, id).None? { return; }
      var latest := LatestAttemptsFor(id);
      if latest == map[] { return; }
      SetMessageState(id, NextState(latest, RepliesOf(replies, id)));
    }

    method RecordSubmission(message: string, origin: Option<string>, jobs: seq<Job>, ids: seq<string>)
      requires Legal(State(), Submit(message, origin, jobs, ids))
      modifies this`messages, this`attempts
      ensures Some(State()) == Do(old(State()), Submit(message, origin, jobs, ids))
      ensures jobs == [] ==> State() == old(State())
      ensures jobs != [] ==> messages == old(messages) + [Message(message, origin, AgentsOf(jobs), Queued)]
      ensures |attempts| == |old(attempts)| + |jobs| && attempts[..|old(attempts)|] == old(attempts)
      ensures forall i :: 0 <= i < |jobs| ==>
                attempts[|old(attempts)| + i] == Attempt(ids[i], message, jobs[i].agent, jobs[i].id, 0, AttemptPending)
    {
      if jobs == [] { return; }
      messages := messages + [Message(message, origin, AgentsOf(jobs), Queued)];
      ghost var all := FirstAttempts(message, jobs, ids);
      for i := 0 to |jobs|
        invariant messages == old(messages) + [Message(message, origin, AgentsOf(jobs), Queued)]
        invariant attempts == old(attempts) + all[..i]
      {
        attempts := attempts + [Attempt(ids[i], message, jobs[i].agent, jobs[i].id, 0, AttemptPending)];
      }
      assert all[..|jobs|] == all;
    }

    method MarkAttemptStarted(job: string)
      modifies this`messages, this`attempts
      ensures Some(State()) == Do(old(State()), Start(job))
      ensures LatestByJob(old(attempts), job).None? ==> State() == old(State())
      ensures LatestByJob(old(attempts), job).Some? ==>
                var a := LatestByJob(old(attempts), job).value;
                && attempts == old(attempts) + [a.(state := AttemptRunning)]
                && (LatestMessage(old(messages), a.message).Some? ==>
                      LatestMessage(messages, a.message) == Some(LatestMessage(old(messages), a.message).value.(state := Running)))
    {
      var attempt := LatestByJob(attempts, job);
      if attempt.None? { return; }
      attempts := attempts + [attempt.value.(state := AttemptRunning)];
      SetMessageState(attempt.value.message, Running);
    }

    method RecordAttemptTerminal(job: string, status: JobStatus)
      modifies this`messages, this`attempts
      ensures State() == Finished(old(State()), job, status)
      ensures LatestByJob(old(attempts), job).None? ==> State() == old(State())
      ensures LatestByJob(old(attempts), job).Some? ==>
                var a := LatestByJob(old(attempts), job).value;
                |attempts| == |old(attempts)| + 1 && attempts[..|old(attempts)|] == old(attempts)
                && var b := attempts[|old(attempts)|]; b == a.(state := b.state) && Reports(status, b.state)
    {
      var attempt := LatestByJob(attempts, job);
      if attempt.None? { return; }
      attempts := attempts + [attempt.value.(state := AttemptStateFor(status))];
      RefreshMessageState(attempt.value.message);
    }

    method AppendReply(job: string, status: ReplyStatus, notice: bool)
      modifies this`messages, this`replies
      ensures State() == Replied(old(State()), job, status, notice)
    {
      var attempt := LatestByJob(attempts, job);
      if attempt.None? { return; }
      replies := replies + [Reply(attempt.value.message, attempt.value.id, status, notice)];
      RefreshMessageState(attempt.value.message);
    }

    method RecordReply(job: string, status: JobStatus)
      modifies this`messages, this`replies
      ensures State() == Replied(old(State()), job, ReplyStatusFor(status), false)
      ensures LatestByJob(attempts, job).None? ==> State() == old(State())
      ensures LatestByJob(attempts, job).Some? ==>
                var a := LatestByJob(attempts, job).value;
                |replies| == |old(replies)| + 1 && replies[..|old(replies)|] == old(replies)
                && var r := replies[|old(replies)|];
                   r == Reply(a.message, a.id, r.status, false) && Answers(status, r.status)
    {
      AppendReply(job, ReplyStatusFor(status), false);
    }

    method RecordNotice(job: string, status: ReplyStatus, notice: bool)
      modifies this`messages, this`replies
      ensures State() == Replied(old(State()), job, status, notice)
      ensures LatestByJob(attempts, job).None? ==> State() == old(State())
      ensures LatestByJob(attempts, job).Some? ==>
                var a := LatestByJob(attempts, job).value; replies == old(replies) + [Reply(a.message, a.id, status, notice)]
    {
      AppendReply(job, status, notice);
    }

    method RecordTerminal(job: string, status: JobStatus, reply: bool)
      modifies this
      ensures State() == Concluded(old(State()), job, status, reply)
      ensures LatestByJob(old(attempts), job).None? ==> State() == old(State())
      ensures LatestByJob(old(attempts), job).Some? ==>
                var a := LatestByJob(old(attempts), job).value;
                && LatestAttempt(attempts, a.id).Some? && Reports(status, LatestAttempt(attempts, a.id).value.state)
                && (if reply then |replies| == |old(replies)| + 1 && Answers(status, replies[|old(replies)|].status)
                    else replies == old(replies))
    {
      if LatestByJob(attempts, job).Some? {
        ConclusionIsReported(State(), job, status, reply);
      }
      RecordAttemptTerminal(job, status);
      if !reply { return; }
      RecordReply(job, status);
    }

    method RecordRetryAttempt(message: string, job: Job, id: string) returns (raised: bool)
      requires Legal(State(), Retry(message, job, id))
      modifies this`messages, this`attempts
      ensures raised <==> LatestMessage(old(messages), message).None?
      ensures !raised ==>
                && (exists k :: attempts == old(attempts) + [Attempt(id, message, job.agent, job.id, k, AttemptPending)])
                && LatestMessage(messages, message) == Some(LatestMessage(old(messages), message).value.(state := Queued))
      ensures State() == if raised then old(State()) else Do(old(State()), Retry(message, job, id)).value
    {
      if LatestMessage(messages, message).None? { return true; }
      var index := RetryIndexFor(message, job.agent);
      attempts := attempts + [Attempt(id, message, job.agent, job.id, index, AttemptPending)];
      SetMessageState(message, Queued);
      return false;
    }
  }
}
