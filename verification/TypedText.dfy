/**
 Keystrokes, effect re-runs and load completions in any interleaving: what is
 on screen, and whose it is.
 */
module TypedText {
  import opened Base
  import opened EncryptionState
  import opened Hook

  datatype Event =
    | Keystroke(text: string)
    | Rerun(inputs: Inputs, key: Option<SessionKey>)
    | Completes(load: nat, fetched: Fetched, reprobing: bool)

  /** A load in flight: the token and the key it took with it. */
  datatype Load = Load(token: nat, inputs: Inputs, key: Option<SessionKey>)

  datatype Screen = Screen(hook: HookState, loads: seq<Load>)

  const Blank := Screen(HookState(None, 0), [])

  function Step(s: Screen, e: Event): Screen {
    match e
    case Keystroke(text) => s.(hook := s.hook.Typed(text))
    case Rerun(inputs, key) =>
      Screen(s.hook.Reran(), s.loads + [Load(s.hook.Reran().generation, inputs, key)])
    case Completes(i, fetched, reprobing) =>
      if i < |s.loads| then
        s.(hook := s.hook.Finished(s.loads[i].token, LoadedValue(fetched, s.loads[i].key), reprobing))
      else s
  }

  function Play(trace: seq<Event>): Screen {
    if trace == [] then Blank
    else Step(Play(trace[..|trace| - 1]), trace[|trace| - 1])
  }

  // The reference: read off the trace alone, with no tokens anywhere.

  datatype RunOf = RunOf(inputs: Inputs, key: Option<SessionKey>)

  /** The effect's runs so far, oldest first. */
  function Runs(trace: seq<Event>): seq<RunOf> {
    if trace == [] then []
    else
      var before, last := Runs(trace[..|trace| - 1]), trace[|trace| - 1];
      if last.Rerun? then before + [RunOf(last.inputs, last.key)] else before
  }

  /** The latest keystroke since the effect last ran. */
  function TypedSinceRun(trace: seq<Event>): Option<string> {
    if trace == [] then None
    else
      match trace[|trace| - 1]
      case Keystroke(text) => Some(text)
      case Rerun(_, _) => None
      case Completes(_, _, _) => TypedSinceRun(trace[..|trace| - 1])
  }

  function Shown(loaded: Loaded, reprobing: bool): Option<string> {
    match loaded
    case Value(text) => Some(text)
    case WasSealed => None
    case WasUnopenable => if reprobing then None else Some("")
  }

  /**
   What should be on screen: the latest keystroke since the last run; failing
   that, the last thing the load begun by that very run showed.
   */
  function Expected(trace: seq<Event>): Option<string> {
    if trace == [] then None
    else
      var before, last := trace[..|trace| - 1], trace[|trace| - 1];
      match last
      case Keystroke(text) => Some(text)
      case Rerun(_, _) => None
      case Completes(i, fetched, reprobing) =>
        var runs := Runs(before);
        if TypedSinceRun(before).Some? || |runs| == 0 || i != |runs| - 1 then Expected(before)
        else
          var shown := Shown(LoadedValue(fetched, runs[i].key), reprobing);
          if shown.Some? then shown else Expected(before)
  }

  ghost predicate TokensTellRuns(trace: seq<Event>, s: Screen) {
    && |s.loads| == |Runs(trace)|
    && (forall i :: 0 <= i < |s.loads| ==>
          Runs(trace)[i] == RunOf(s.loads[i].inputs, s.loads[i].key) && s.loads[i].token <= s.hook.generation)
    && (forall i, j :: 0 <= i < j < |s.loads| ==> s.loads[i].token < s.loads[j].token)
    && (|s.loads| > 0 ==> (s.loads[|s.loads| - 1].token == s.hook.generation <==> TypedSinceRun(trace).None?))
  }

  lemma {:induction false} TokensAreFaithful(trace: seq<Event>)
    ensures TokensTellRuns(trace, Play(trace))
  {
    if trace != [] {
      TokensAreFaithful(trace[..|trace| - 1]);
    }
  }

  /** The counter implements the reference, for every interleaving. */
  lemma {:induction false} ScreenShowsExpected(trace: seq<Event>)
    ensures Play(trace).hook.value == Expected(trace)
  {
    if trace != [] {
      var before := trace[..|trace| - 1];
      ScreenShowsExpected(before);
      TokensAreFaithful(before);
    }
  }

  /** Once typed, text stays until it is typed over or the effect runs again. */
  lemma {:induction false} TypedTextStands(trace: seq<Event>)
    ensures TypedSinceRun(trace).Some? ==> Play(trace).hook.value == TypedSinceRun(trace)
  {
    ScreenShowsExpected(trace);
    ExpectedKeepsTyping(trace);
  }

  lemma {:induction false} ExpectedKeepsTyping(trace: seq<Event>)
    ensures TypedSinceRun(trace).Some? ==> Expected(trace) == TypedSinceRun(trace)
  {
    if trace != [] {
      ExpectedKeepsTyping(trace[..|trace| - 1]);
    }
  }

  /** Anything else on screen came from the load of the last run: its day, backend and key. */
  lemma {:induction false} LoadedTextIsOfLastRun(trace: seq<Event>, text: string)
    requires Play(trace).hook.value == Some(text) && TypedSinceRun(trace).None?
    ensures var runs := Runs(trace);
            && |runs| > 0
            && exists j :: 0 <= j < |trace| && trace[j].Completes? && trace[j].load == |runs| - 1
                 && Shown(LoadedValue(trace[j].fetched, runs[|runs| - 1].key), trace[j].reprobing) == Some(text)
  {
    ScreenShowsExpected(trace);
    ExpectedHasALoad(trace, text);
  }

  lemma {:induction false} ExpectedHasALoad(trace: seq<Event>, text: string)
    requires Expected(trace) == Some(text) && TypedSinceRun(trace).None?
    ensures var runs := Runs(trace);
            && |runs| > 0
            && exists j :: 0 <= j < |trace| && trace[j].Completes? && trace[j].load == |runs| - 1
                 && Shown(LoadedValue(trace[j].fetched, runs[|runs| - 1].key), trace[j].reprobing) == Some(text)
  {
    var before, last := trace[..|trace| - 1], trace[|trace| - 1];
    TokensAreFaithful(before);
    var runs := Runs(before);
    assert Runs(trace) == runs;
    var isNewest := |runs| > 0 && last.load == |runs| - 1
                    && Shown(LoadedValue(last.fetched, runs[last.load].key), last.reprobing).Some?;
    if !isNewest {
      ExpectedHasALoad(before, text);
      var j :| 0 <= j < |before| && before[j].Completes? && before[j].load == |runs| - 1
               && Shown(LoadedValue(before[j].fetched, runs[|runs| - 1].key), before[j].reprobing) == Some(text);
      assert trace[j] == before[j];
    } else {
      assert trace[|trace| - 1].load == |runs| - 1;
    }
  }
}
