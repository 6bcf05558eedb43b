/** The blacklist: a rule map that a refresher swaps behind a read-write lock. */
module Blacklist {
  import opened Records

  datatype Item = Item(id: string, reason: string)

  type Rules = map<string, string>

  /** Matching a pattern against an id; None for a pattern that is no regular expression. */
  type Matcher = (string, string) -> Option<bool>

  // The last entry for an id wins.
  function LastWins(data: seq<Item>): Rules {
    if data == [] then map[]
    else LastWins(data[..|data| - 1])[data[|data| - 1].id := data[|data| - 1].reason]
  }

  lemma {:induction false} LastWinsMeans(data: seq<Item>, id: string)
    ensures id in LastWins(data) <==> exists i :: 0 <= i < |data| && data[i].id == id
    ensures forall i :: 0 <= i < |data| && data[i].id == id && (forall j :: i < j < |data| ==> data[j].id != id)
              ==> id in LastWins(data) && LastWins(data)[id] == data[i].reason
  {
    if data != [] {
      var n := |data| - 1;
      LastWinsMeans(data[..n], id);
      assert forall i :: 0 <= i < n ==> data[..n][i] == data[i];
    }
  }

  predicate Hits(matches: Matcher, pattern: string, id: string) { matches(pattern, id) == Some(true) }

  /** What InList may answer for the given rules. */
  predicate Answers(rules: Rules, matches: Matcher, id: string, reason: string, ok: bool) {
    && (ok <==> id in rules || exists p :: p in rules && Hits(matches, p, id))
    && (id in rules ==> reason == rules[id])
    && (ok && id !in rules ==> exists p :: p in rules && Hits(matches, p, id) && reason == rules[p])
    && (!ok ==> reason == "")
  }

  // ---------------------------------------------------------------- the list

  class SyncList {
    var rules: Rules
    const matches: Matcher

    constructor (matches: Matcher)
      ensures rules == map[] && this.matches == matches
    {
      rules := map[];
      this.matches := matches;
    }

    /** InList: the exact rule first, then the patterns in any order. */
    method InList(id: string) returns (reason: string, ok: bool)
      ensures Answers(rules, matches, id, reason, ok)
      ensures ok <==> id in rules || exists p :: p in rules && matches(p, id) == Some(true)
      ensures ok ==> if id in rules then reason == rules[id]
                     else exists p :: p in rules && matches(p, id) == Some(true) && reason == rules[p]
      ensures !ok ==> reason == ""
    {
      if id in rules { return rules[id], true; }
      var rest := rules.Keys;
      while rest != {}
        invariant rest <= rules.Keys
        invariant forall p :: p in rules && p !in rest ==> matches(p, id) != Some(true)
      {
        var pattern :| pattern in rest;
        var matched := matches(pattern, id);
        if matched.Some? && matched.value {
          assert matches(pattern, id) == Some(true);
          return rules[pattern], true;
        }
        rest := rest - {pattern};
      }
      return "", false;
    }

    /** UpdateList: the new rules replace the old ones entirely. */
    method UpdateList(data: seq<Item>)
      modifies this
      ensures rules == LastWins(data)
    {
      var newData: Rules := map[];
      for i := 0 to |data|
        invariant newData == LastWins(data[..i])
      {
        newData := newData[data[i].id := data[i].reason];
        assert data[..i + 1][..i] == data[..i];
      }
      assert data[..|data|] == data;
      rules := newData;
    }

    /** updateList: a failed fetch changes nothing. */
    method Refresh(fetched: Option<seq<Item>>)
      modifies this
      ensures rules == if fetched.Some? then LastWins(fetched.value) else old(rules)
    {
      if fetched.Some? { UpdateList(fetched.value); }
    }
  }

  // ---------------------------------------------------------------- readers and the refresher, interleaved

  /** One InList call. `seen` counts the refreshes completed when it took the read lock. */
  datatype Reader =
    | Locked(id: string, seen: nat)                          // read lock taken
    | Scanning(id: string, seen: nat, rest: set<string>)     // no exact rule; these patterns are still to try
    | Finished(id: string, seen: nat, reason: string, ok: bool)

  /** `waiting` is the refresher's new list, not installed yet; `installed` lists every swap made. */
  datatype State = State(rules: Rules, waiting: Option<seq<Item>>, readers: seq<Reader>, installed: seq<seq<Item>>)

  datatype Step =
    | FetchSucceeds(data: seq<Item>) | FetchFails | Swap
    | Lock(id: string) | CheckExact(r: nat) | Try(r: nat, pattern: string) | GiveUp(r: nat)

  predicate Enabled(s: State, step: Step) {
    match step
    case FetchSucceeds(_) => s.waiting.None?
    case FetchFails => s.waiting.None?
    case Swap => s.waiting.Some? && forall r :: 0 <= r < |s.readers| ==> s.readers[r].Finished?
    case Lock(_) => true
    case CheckExact(r) => r < |s.readers| && s.readers[r].Locked?
    case Try(r, pattern) =>
      r < |s.readers| && s.readers[r].Scanning? && pattern in s.readers[r].rest && pattern in s.rules
    case GiveUp(r) => r < |s.readers| && s.readers[r].Scanning? && s.readers[r].rest == {}
  }

  function Apply(matches: Matcher, s: State, step: Step): State
    requires Enabled(s, step)
  {
    match step
    case FetchSucceeds(data) => s.(waiting := Some(data))
    case FetchFails => s
    case Swap => s.(rules := LastWins(s.waiting.value), waiting := None, installed := s.installed + [s.waiting.value])
    case Lock(id) => s.(readers := s.readers + [Locked(id, |s.installed|)])
    case CheckExact(r) =>
      var x := s.readers[r];
      s.(readers := s.readers[r := if x.id in s.rules then Finished(x.id, x.seen, s.rules[x.id], true)
                                   else Scanning(x.id, x.seen, s.rules.Keys)])
    case Try(r, pattern) =>
      var x := s.readers[r];
      s.(readers := s.readers[r := if Hits(matches, pattern, x.id) then Finished(x.id, x.seen, s.rules[pattern], true)
                                   else x.(rest := x.rest - {pattern})])
    case GiveUp(r) => s.(readers := s.readers[r := Finished(s.readers[r].id, s.readers[r].seen, "", false)])
  }

  predicate CanRun(matches: Matcher, s: State, steps: seq<Step>)
    decreases |steps|
  {
    steps == [] || (Enabled(s, steps[0]) && CanRun(matches, Apply(matches, s, steps[0]), steps[1..]))
  }

  function After(matches: Matcher, s: State, steps: seq<Step>): State
    requires CanRun(matches, s, steps)
    decreases |steps|
  {
    if steps == [] then s else After(matches, Apply(matches, s, steps[0]), steps[1..])
  }

  const START := State(map[], None, [], [])

  // The rules after the first `n` refreshes: those of one complete successful fetch, or none.
  function SnapshotAt(installed: seq<seq<Item>>, n: nat): Rules
    requires n <= |installed|
  {
    if n == 0 then map[] else LastWins(installed[n - 1])
  }

  predicate GoodReader(matches: Matcher, rules: Rules, installed: seq<seq<Item>>, x: Reader) {
    match x
    case Locked(_, seen) => seen == |installed|
    case Scanning(id, seen, rest) =>
      seen == |installed| && id !in rules && rest <= rules.Keys
      && forall p :: p in rules && p !in rest ==> !Hits(matches, p, id)
    case Finished(id, seen, reason, ok) =>
      seen <= |installed| && Answers(SnapshotAt(installed, seen), matches, id, reason, ok)
  }

  predicate Inv(matches: Matcher, s: State) {
    && s.rules == SnapshotAt(s.installed, |s.installed|)
    && forall r :: 0 <= r < |s.readers| ==> GoodReader(matches, s.rules, s.installed, s.readers[r])
  }

  lemma StepKeepsInv(matches: Matcher, s: State, step: Step)
    requires Inv(matches, s) && Enabled(s, step)
    ensures Inv(matches, Apply(matches, s, step))
  {
    var t := Apply(matches, s, step);
    if step.Swap? {
      forall r | 0 <= r < |s.readers| ensures GoodReader(matches, t.rules, t.installed, s.readers[r]) {
        var seen := s.readers[r].seen;
        assert SnapshotAt(t.installed, seen) == SnapshotAt(s.installed, seen);
      }
    }
  }

  lemma {:induction false} RunKeepsInv(matches: Matcher, s: State, steps: seq<Step>)
    requires Inv(matches, s) && CanRun(matches, s, steps)
    ensures Inv(matches, After(matches, s, steps))
    decreases |steps|
  {
    if steps != [] {
      StepKeepsInv(matches, s, steps[0]);
      RunKeepsInv(matches, Apply(matches, s, steps[0]), steps[1..]);
    }
  }

  /**
   However readers and refreshes interleave, the rules are those of the last
   complete successful fetch (none before the first), and every answer is right for
   the one snapshot that was installed throughout the call.
   */
  lemma AnswersComeFromOneSnapshot(matches: Matcher, steps: seq<Step>)
    requires CanRun(matches, START, steps)
    ensures var s := After(matches, START, steps);
            && s.rules == SnapshotAt(s.installed, |s.installed|)
            && forall r :: 0 <= r < |s.readers| && s.readers[r].Finished? ==>
                 s.readers[r].seen <= |s.installed|
                 && Answers(SnapshotAt(s.installed, s.readers[r].seen), matches,
                            s.readers[r].id, s.readers[r].reason, s.readers[r].ok)
  {
    RunKeepsInv(matches, START, steps);
  }

  /** While a call is under way the snapshot it reads stays installed. */
  lemma NoSwapUnderReaders(matches: Matcher, steps: seq<Step>, r: nat)
    requires CanRun(matches, START, steps)
    requires var s := After(matches, START, steps); r < |s.readers| && !s.readers[r].Finished?
    ensures var s := After(matches, START, steps);
            s.readers[r].seen == |s.installed| && !Enabled(s, Swap)
  {
    RunKeepsInv(matches, START, steps);
  }

  // ---------------------------------------------------------------- what the run says

  // The lists of the fetches that succeeded, in order.
  function Fetches(steps: seq<Step>): seq<seq<Item>> {
    if steps == [] then []
    else
      var step := steps[|steps| - 1];
      Fetches(steps[..|steps| - 1]) + if step.FetchSucceeds? then [step.data] else []
  }

  function Swaps(steps: seq<Step>): nat {
    if steps == [] then 0 else Swaps(steps[..|steps| - 1]) + if steps[|steps| - 1] == Swap then 1 else 0
  }

  // The calls of InList: the id asked for, and how many lists had been swapped in by then.
  function Asked(steps: seq<Step>): seq<(string, nat)> {
    if steps == [] then []
    else
      var front, step := steps[..|steps| - 1], steps[|steps| - 1];
      Asked(front) + if step.Lock? then [(step.id, Swaps(front))] else []
  }

  // The state is what the fetches, the swaps and the calls have made it.
  predicate MadeBy(s: State, fetches: seq<seq<Item>>, swaps: nat, asked: seq<(string, nat)>) {
    && swaps <= |fetches| <= swaps + 1
    && s.installed == fetches[..swaps]
    && s.waiting == (if |fetches| > swaps then Some(fetches[swaps]) else None)
    && |s.readers| == |asked|
    && forall r :: 0 <= r < |asked| ==> s.readers[r].id == asked[r].0 && s.readers[r].seen == asked[r].1
  }

  lemma MadeByStep(
    matches: Matcher, s: State, step: Step, fetches: seq<seq<Item>>, swaps: nat, asked: seq<(string, nat)>)
    requires MadeBy(s, fetches, swaps, asked) && Enabled(s, step)
    ensures MadeBy(Apply(matches, s, step),
                   fetches + if step.FetchSucceeds? then [step.data] else [],
                   swaps + if step == Swap then 1 else 0,
                   asked + if step.Lock? then [(step.id, swaps)] else [])
  {
  }

  lemma {:induction false} RunFront(matches: Matcher, s: State, steps: seq<Step>)
    requires steps != [] && CanRun(matches, s, steps)
    ensures var front, last := steps[..|steps| - 1], steps[|steps| - 1];
            && CanRun(matches, s, front) && Enabled(After(matches, s, front), last)
            && After(matches, s, steps) == Apply(matches, After(matches, s, front), last)
    decreases |steps|
  {
    if |steps| > 1 {
      RunFront(matches, Apply(matches, s, steps[0]), steps[1..]);
      assert steps[1..][..|steps| - 2] == steps[..|steps| - 1][1..];
    }
  }

  lemma {:induction false} StateIsMadeBySteps(matches: Matcher, steps: seq<Step>)
    requires CanRun(matches, START, steps)
    ensures MadeBy(After(matches, START, steps), Fetches(steps), Swaps(steps), Asked(steps))
  {
    if steps != [] {
      var front, last := steps[..|steps| - 1], steps[|steps| - 1];
      RunFront(matches, START, steps);
      StateIsMadeBySteps(matches, front);
      MadeByStep(matches, After(matches, START, front), last, Fetches(front), Swaps(front), Asked(front));
    }
  }

  /**
   After any run the rules hold exactly the ids of the list last swapped in, which a
   fetch of the run returned, each with its last reason there; before the first swap
   they are empty. Failed fetches play no part.
   */
  lemma RulesAreLastFetch(matches: Matcher, steps: seq<Step>, id: string)
    requires CanRun(matches, START, steps)
    ensures Swaps(steps) <= |Fetches(steps)|
    ensures var rules := After(matches, START, steps).rules;
            if Swaps(steps) == 0 then rules == map[]
            else var data := Fetches(steps)[Swaps(steps) - 1];
                 && (id in rules <==> exists i :: 0 <= i < |data| && data[i].id == id)
                 && forall i :: 0 <= i < |data| && data[i].id == id && (forall j :: i < j < |data| ==> data[j].id != id)
                      ==> id in rules && rules[id] == data[i].reason
  {
    RunKeepsInv(matches, START, steps);
    StateIsMadeBySteps(matches, steps);
    if Swaps(steps) > 0 { LastWinsMeans(Fetches(steps)[Swaps(steps) - 1], id); }
  }

  /** The new list can be swapped in exactly when no call is under way, and every call under way has a next action. */
  lemma SwapIff(matches: Matcher, steps: seq<Step>)
    requires CanRun(matches, START, steps) && After(matches, START, steps).waiting.Some?
    ensures var s := After(matches, START, steps);
            && (Enabled(s, Swap) <==> forall r :: 0 <= r < |s.readers| ==> s.readers[r].Finished?)
            && forall r :: 0 <= r < |s.readers| && !s.readers[r].Finished? ==>
                 exists step :: Enabled(s, step) && (step == CheckExact(r) || step == GiveUp(r)
                                                     || (step.Try? && step.r == r))
  {
    RunKeepsInv(matches, START, steps);
    var s := After(matches, START, steps);
    forall r | 0 <= r < |s.readers| && !s.readers[r].Finished?
      ensures exists step :: Enabled(s, step) && (step == CheckExact(r) || step == GiveUp(r)
                                                  || (step.Try? && step.r == r))
    {
      assert GoodReader(matches, s.rules, s.installed, s.readers[r]);
      if s.readers[r].Locked? {
        assert Enabled(s, CheckExact(r));
      } else if s.readers[r].rest == {} {
        assert Enabled(s, GiveUp(r));
      } else {
        var pattern :| pattern in s.readers[r].rest;
        assert Enabled(s, Try(r, pattern));
      }
    }
  }

  /** A failed fetch changes nothing at all; a successful one only what is waiting to be swapped in. */
  lemma FetchesWait(matches: Matcher, s: State, data: seq<Item>)
    requires s.waiting.None?
    ensures Enabled(s, FetchFails) && Apply(matches, s, FetchFails) == s
    ensures Enabled(s, FetchSucceeds(data)) && Apply(matches, s, FetchSucceeds(data)) == s.(waiting := Some(data))
  {
  }

  /**
   Each finished call of InList was for the id it was made with, and its answer is right
   for the one list that was in place when it was made.
   */
  lemma AnswersAreForTheCall(matches: Matcher, steps: seq<Step>, r: nat)
    requires CanRun(matches, START, steps) && r < |Asked(steps)|
    ensures Asked(steps)[r].1 <= |Fetches(steps)| && r < |After(matches, START, steps).readers|
    ensures var x, (id, swaps) := After(matches, START, steps).readers[r], Asked(steps)[r];
            var rules := if swaps == 0 then map[] else LastWins(Fetches(steps)[swaps - 1]);
            x.Finished? ==>
              && (x.ok <==> id in rules || exists p :: p in rules && matches(p, id) == Some(true))
              && (x.ok ==> if id in rules then x.reason == rules[id]
                           else exists p :: p in rules && matches(p, id) == Some(true) && x.reason == rules[p])
              && (!x.ok ==> x.reason == "")
  {
    RunKeepsInv(matches, START, steps);
    StateIsMadeBySteps(matches, steps);
    var s := After(matches, START, steps);
    assert GoodReader(matches, s.rules, s.installed, s.readers[r]);
    assert forall p :: Hits(matches, p, Asked(steps)[r].0) <==> matches(p, Asked(steps)[r].0) == Some(true);
  }
}
