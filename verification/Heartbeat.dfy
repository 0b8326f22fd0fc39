/** The heartbeat engine (lib/heartbeat/engine_runtime.py): a silent subject gets a first notice, then
    repeated ones at a minimum distance, until progress is seen again.  Timestamps are texts; `parse` is
    the timestamp parser, which fails on a text that is no timestamp. */
module Heartbeat {
  import opened Wrappers

  datatype Policy = Policy(silenceStart: real, repeatInterval: real, maxNotices: Option<int>)

  predicate ValidPolicy(p: Policy) {
    p.silenceStart >= 0.0 && p.repeatInterval > 0.0 && (p.maxNotices.Some? ==> p.maxNotices.value > 0)
  }

  datatype Action = Idle | Reset | Enter | Repeat

  datatype State = State(subject: string, lastProgress: string, lastNotice: Option<string>, startedAt: Option<string>,
                         notices: int, updatedAt: string)

  type Parser = string -> Option<real>

  /** Seconds from one timestamp to another; `None` when one of them does not parse. */
  function SecondsBetween(parse: Parser, start: string, end: string): Option<real> {
    if parse(start).Some? && parse(end).Some? then Some(parse(end).value - parse(start).value) else None
  }

  /** Elapsed time, never negative and zero when it cannot be computed. */
  function Elapsed(parse: Parser, start: string, end: string): real {
    var s := SecondsBetween(parse, start, end);
    if s.None? || s.value < 0.0 then 0.0 else s.value
  }

  predicate ProgressAdvanced(parse: Parser, observed: string, recorded: string) {
    if observed == recorded then false
    else
      var s := SecondsBetween(parse, recorded, observed);
      s.None? || s.value > 0.0
  }

  predicate Active(s: State) { s.notices > 0 || s.lastNotice.Some? }

  /** One evaluation; `None` when the engine raises, because a timestamp it needs is empty. */
  function Evaluate(p: Policy, parse: Parser, subject: string, observed: string, now: string, state: Option<State>)
    : Option<(State, Action)>
  {
    var progress := if observed != "" then observed else now;
    if progress == "" || (state.None? && now == "") then None
    else
      var current := if state.Some? then state.value else State(subject, progress, None, None, 0, now);
      var named := current.(subject := subject);
      if ProgressAdvanced(parse, progress, current.lastProgress) && Active(current) then
        if now == "" then None
        else Some((named.(lastProgress := progress, lastNotice := None, startedAt := None, notices := 0, updatedAt := now), Reset))
      else
        var base := named.(lastProgress := progress);
        if Elapsed(parse, progress, now) < p.silenceStart then Some((base, Idle))
        else if base.lastNotice.None? || base.notices <= 0 then
          if now == "" then None else Some((Noticed(base, now, 1), Enter))
        else if p.maxNotices.Some? && base.notices >= p.maxNotices.value then Some((base, Idle))
        else if Elapsed(parse, base.lastNotice.value, now) < p.repeatInterval then Some((base, Idle))
        else if now == "" then None
        else Some((Noticed(base, now, base.notices + 1), Repeat))
  }

  function Noticed(s: State, now: string, notices: int): State {
    s.(lastNotice := Some(now), startedAt := if s.startedAt.Some? then s.startedAt else Some(now),
       notices := notices, updatedAt := now)
  }

  // ----- runs -------------------------------------------------------------------------------

  datatype Observation = Observation(subject: string, progress: string, now: string)

  /** The stored state and the actions decided so far; an evaluation that raises stores nothing. */
  datatype History = History(state: Option<State>, actions: seq<Action>)

  function Run(p: Policy, parse: Parser, obs: seq<Observation>): History {
    if obs == [] then History(None, [])
    else
      var h, o := Run(p, parse, obs[..|obs| - 1]), obs[|obs| - 1];
      match Evaluate(p, parse, o.subject, o.progress, o.now, h.state)
      case None => h
      case Some((s, action)) => History(Some(s), h.actions + [action])
  }

  /** Notices decided since the last reset. */
  function Outstanding(actions: seq<Action>): nat {
    if actions == [] then 0
    else
      match actions[|actions| - 1]
      case Reset => 0
      case Idle => Outstanding(actions[..|actions| - 1])
      case _ => Outstanding(actions[..|actions| - 1]) + 1
  }

  /** The first notice was at `startedAt`, and later ones kept their distance. */
  ghost predicate Spaced(p: Policy, parse: Parser, s: State) {
    && s.notices >= 0
    && (s.notices == 0 <==> s.lastNotice.None?) && (s.notices == 0 <==> s.startedAt.None?)
    && (s.notices == 1 ==> s.lastNotice == s.startedAt)
    && (s.notices > 1 ==>
          && parse(s.lastNotice.value).Some? && parse(s.startedAt.value).Some?
          && (s.notices - 1) as real * p.repeatInterval <= parse(s.lastNotice.value).value - parse(s.startedAt.value).value)
  }

  ghost predicate Bounded(p: Policy, s: State) { p.maxNotices.Some? ==> s.notices <= p.maxNotices.value }

  lemma RepeatKeepsDistance(p: Policy, n: int, first: real, last: real, now: real)
    requires n >= 1 && (n - 1) as real * p.repeatInterval <= last - first && now - last >= p.repeatInterval
    ensures n as real * p.repeatInterval <= now - first
  {
    assert n as real * p.repeatInterval == (n - 1) as real * p.repeatInterval + p.repeatInterval;
  }

  lemma EvaluateKeeps(p: Policy, parse: Parser, o: Observation, state: Option<State>)
    requires ValidPolicy(p) && (state.Some? ==> Spaced(p, parse, state.value) && Bounded(p, state.value))
    requires Evaluate(p, parse, o.subject, o.progress, o.now, state).Some?
    ensures var (s, action) := Evaluate(p, parse, o.subject, o.progress, o.now, state).value;
            && Spaced(p, parse, s) && Bounded(p, s)
            && s.notices == match action
                            case Reset => 0
                            case Idle => if state.Some? then state.value.notices else 0
                            case _ => (if state.Some? then state.value.notices else 0) + 1
  {
    var (s, action) := Evaluate(p, parse, o.subject, o.progress, o.now, state).value;
    if action.Repeat? {
      var last, first := state.value.lastNotice.value, state.value.startedAt.value;
      RepeatKeepsDistance(p, state.value.notices, parse(first).value, parse(last).value, parse(o.now).value);
    }
  }

  /** In every run under one policy: the notice count is the number of notices decided since the last
      reset, it respects the maximum, and `n` outstanding notices span at least `n - 1` intervals. */
  lemma {:induction false} RunIsSpaced(p: Policy, parse: Parser, obs: seq<Observation>)
    requires ValidPolicy(p)
    ensures var h := Run(p, parse, obs);
            && (h.state.None? ==> h.actions == [])
            && (h.state.Some? ==>
                  && h.state.value.notices == Outstanding(h.actions)
                  && Spaced(p, parse, h.state.value) && Bounded(p, h.state.value))
  {
    if obs != [] {
      var init, o := obs[..|obs| - 1], obs[|obs| - 1];
      RunIsSpaced(p, parse, init);
      var h := Run(p, parse, init);
      var r := Evaluate(p, parse, o.subject, o.progress, o.now, h.state);
      if r.Some? {
        EvaluateKeeps(p, parse, o, h.state);
        assert (h.actions + [r.value.1])[..|h.actions|] == h.actions;
      }
    }
  }

  /** Two notices without a reset between them are at least one repeat interval apart, even when the
      clock jumps or the subject reports unreadable timestamps. */
  lemma NoticesAreApart(p: Policy, parse: Parser, o: Observation, s: State)
    requires ValidPolicy(p) && Spaced(p, parse, s) && s.notices > 0
    requires Evaluate(p, parse, o.subject, o.progress, o.now, Some(s)).Some?
    requires Evaluate(p, parse, o.subject, o.progress, o.now, Some(s)).value.1 in {Enter, Repeat}
    ensures Evaluate(p, parse, o.subject, o.progress, o.now, Some(s)).value.1 == Repeat
    ensures parse(s.lastNotice.value).Some? && parse(o.now).Some?
    ensures parse(o.now).value - parse(s.lastNotice.value).value >= p.repeatInterval
  {
  }

  /** Seconds from one readable timestamp to another. */
  function Gap(parse: Parser, start: string, end: string): real
    requires parse(start).Some? && parse(end).Some?
  {
    parse(end).value - parse(start).value
  }

  /** What is decided, when all timestamps can be read: with notices outstanding, newer progress resets; short of
      the silence nothing happens; after it there is a first notice if none is outstanding, and otherwise one
      more if the maximum allows it and the interval since the last one is over. */
  lemma DecidesExactly(p: Policy, parse: Parser, o: Observation, s: State)
    requires ValidPolicy(p) && Spaced(p, parse, s) && o.progress != "" && o.now != ""
    requires parse(o.progress).Some? && parse(o.now).Some? && parse(s.lastProgress).Some?
    requires s.notices > 0 ==> parse(s.lastNotice.value).Some?
    ensures Evaluate(p, parse, o.subject, o.progress, o.now, Some(s)).Some?
    ensures var action := Evaluate(p, parse, o.subject, o.progress, o.now, Some(s)).value.1;
      var newer := s.notices > 0 && Gap(parse, s.lastProgress, o.progress) > 0.0;
      var silent := p.silenceStart == 0.0 || Gap(parse, o.progress, o.now) >= p.silenceStart;
      && (action == Reset <==> newer)
      && (action == Enter <==> !newer && silent && s.notices == 0)
      && (action == Repeat <==> && !newer && silent && s.notices > 0 && (p.maxNotices.Some? ==> s.notices < p.maxNotices.value)
                                && Gap(parse, s.lastNotice.value, o.now) >= p.repeatInterval)
  {
  }

  /** The first evaluation of a subject: a notice exactly when it has been silent long enough. */
  lemma FirstDecision(p: Policy, parse: Parser, o: Observation)
    requires ValidPolicy(p) && o.progress != "" && o.now != "" && parse(o.progress).Some? && parse(o.now).Some?
    ensures Evaluate(p, parse, o.subject, o.progress, o.now, None).Some?
    ensures var (s, action) := Evaluate(p, parse, o.subject, o.progress, o.now, None).value;
      && s.subject == o.subject && s.lastProgress == o.progress
      && action == if p.silenceStart == 0.0 || Gap(parse, o.progress, o.now) >= p.silenceStart then Enter else Idle
  {
  }

  /** Time that cannot be read counts as no time: no notice while there is a silence to wait for. */
  lemma UnreadableIsNoSilence(p: Policy, parse: Parser, o: Observation, state: Option<State>)
    requires p.silenceStart > 0.0 && o.progress != "" && (parse(o.progress).None? || parse(o.now).None?)
    requires Evaluate(p, parse, o.subject, o.progress, o.now, state).Some?
    ensures Evaluate(p, parse, o.subject, o.progress, o.now, state).value.1 in {Idle, Reset}
  {
  }

  /** The engine raises exactly when it has no timestamp for the progress, or needs the empty present time. */
  lemma RaisesIff(p: Policy, parse: Parser, o: Observation, state: Option<State>)
    ensures o.now != "" ==> Evaluate(p, parse, o.subject, o.progress, o.now, state).Some?
    ensures o.now == "" && (o.progress == "" || state.None?) ==> Evaluate(p, parse, o.subject, o.progress, o.now, state).None?
  {
  }
}
