/** The runtime flags and the critical event buffer (app/services/runtime_state.py, app/services/runtime_safety.py). */
module RuntimeSafety {
  import opened Prelude

  datatype Command = PauseEntry | PauseAll | Halt(reason: string) | Resume

  datatype Flags = Flags(entryPaused: bool, allPaused: bool, halted: bool, haltReason: Option<string>)

  /** What one command does to the flags. */
  function Commanded(f: Flags, c: Command): Flags {
    match c
    case PauseEntry => f.(entryPaused := true, allPaused := false)
    case PauseAll => f.(entryPaused := true, allPaused := true)
    case Halt(reason) => Flags(true, true, true, Some(reason))
    case Resume => Flags(false, false, false, None)
  }

  function Run(cs: seq<Command>): Flags {
    if cs == [] then Flags(false, false, false, None) else Commanded(Run(cs[..|cs| - 1]), cs[|cs| - 1])
  }

  lemma RunNext(cs: seq<Command>, c: Command)
    ensures Run(cs + [c]) == Commanded(Run(cs), c)
  {
    assert (cs + [c])[..|cs|] == cs;
  }

  /** Command h is a halt, and no later command resumes. */
  ghost predicate HaltStands(cs: seq<Command>, h: nat) {
    h < |cs| && cs[h].Halt? && forall k :: h < k < |cs| ==> cs[k] != Resume
  }

  ghost predicate SomeHaltStands(cs: seq<Command>) {
    exists h: nat :: HaltStands(cs, h)
  }

  lemma {:induction false} HaltedExactly(cs: seq<Command>)
    ensures Run(cs).halted <==> SomeHaltStands(cs)
  {
    if cs != [] {
      var front, c := cs[..|cs| - 1], cs[|cs| - 1];
      HaltedExactly(front);
      if c.Halt? { assert HaltStands(cs, |front|); }
      if h: nat :| HaltStands(front, h) && c != Resume { assert HaltStands(cs, h); }
      if h: nat :| HaltStands(cs, h) && h < |front| { assert HaltStands(front, h); }
    }
  }

  /** The system is halted without a general pause exactly when a halt stands and the last command paused entry only. */
  lemma HaltedButNotPaused(cs: seq<Command>)
    ensures Run(cs).halted && !Run(cs).allPaused <==> SomeHaltStands(cs) && cs[|cs| - 1] == PauseEntry
  {
    HaltedExactly(cs);
  }

  /** It takes a halt and one pause of entry. */
  lemma PauseAfterHaltLiftsPause()
    ensures Run([Halt("x"), PauseEntry]).halted && !Run([Halt("x"), PauseEntry]).allPaused
  {
    var cs := [Halt("x"), PauseEntry];
    assert HaltStands(cs, 0);
    HaltedButNotPaused(cs);
  }

  class RuntimeState {
    var entryPaused: bool
    var allPaused: bool
    var halted: bool
    var haltReason: Option<string>
    /** Every command so far. */
    ghost var log: seq<Command>

    constructor ()
      ensures Valid() && log == []
    {
      entryPaused, allPaused, halted, haltReason, log := false, false, false, None, [];
    }

    /** The flags are where the commands have taken them. */
    ghost predicate Valid()
      reads this
    {
      Flags(entryPaused, allPaused, halted, haltReason) == Run(log)
    }

    method PauseEntry()
      requires Valid()
      modifies this
      ensures Valid() && log == old(log) + [Command.PauseEntry]
      ensures entryPaused && !allPaused && halted == old(halted) && haltReason == old(haltReason)
    {
      RunNext(log, Command.PauseEntry);
      entryPaused, allPaused := true, false;
      log := log + [Command.PauseEntry];
    }

    method PauseAll()
      requires Valid()
      modifies this
      ensures Valid() && log == old(log) + [Command.PauseAll]
      ensures entryPaused && allPaused && halted == old(halted) && haltReason == old(haltReason)
    {
      RunNext(log, Command.PauseAll);
      entryPaused, allPaused := true, true;
      log := log + [Command.PauseAll];
    }

    method Halt(reason: string)
      requires Valid()
      modifies this
      ensures Valid() && log == old(log) + [Command.Halt(reason)]
      ensures entryPaused && allPaused && halted && haltReason == Some(reason)
    {
      RunNext(log, Command.Halt(reason));
      ghost var before := log;
      PauseAll();
      halted, haltReason := true, Some(reason);
      log := before + [Command.Halt(reason)];
    }

    method Resume()
      requires Valid()
      modifies this
      ensures Valid() && log == old(log) + [Command.Resume]
      ensures !entryPaused && !allPaused && !halted && haltReason == None
    {
      RunNext(log, Command.Resume);
      entryPaused, allPaused, halted, haltReason := false, false, false, None;
      log := log + [Command.Resume];
    }
  }

  /** The last n elements; all of them if there are fewer. */
  function Last<T>(xs: seq<T>, n: nat): seq<T> {
    if |xs| <= n then xs else xs[|xs| - n..]
  }

  lemma LastAppend<T>(xs: seq<T>, x: T, n: nat)
    ensures Last(xs + [x], n)
            == (var kept := Last(xs, n) + [x]; if |kept| > n then kept[1..] else kept)
  {
  }

  class RuntimeSafetyManager {
    const runtime: RuntimeState
    const maxEvents: nat
    var events: seq<string>
    /** Every critical event ever reported. */
    ghost var history: seq<string>

    constructor (runtime: RuntimeState, maxEvents: nat)
      requires runtime.Valid()
      ensures Valid() && this.runtime == runtime && this.maxEvents == maxEvents && history == []
    {
      this.runtime, this.maxEvents := runtime, maxEvents;
      events, history := [], [];
    }

    /** The buffer holds the newest events of the full history. */
    ghost predicate Valid()
      reads this, runtime
    {
      events == Last(history, maxEvents) && runtime.Valid()
    }

    /** Records the event, drops the oldest one on overflow, and halts the runtime. */
    method Critical(code: string)
      requires Valid()
      modifies this, runtime
      ensures Valid() && history == old(history) + [code]
      ensures runtime.halted && runtime.allPaused && runtime.entryPaused && runtime.haltReason == Some(code)
    {
      LastAppend(history, code, maxEvents);
      events := events + [code];
      if |events| > maxEvents {
        events := events[1..];
      }
      history := history + [code];
      runtime.Halt(code);
    }

    method LatestEvents(limit: int) returns (r: seq<string>)
      requires Valid()
      ensures r == Last(history, if limit <= 0 then 0 else if limit < maxEvents then limit else maxEvents)
    {
      if limit <= 0 { return []; }
      r := if limit < |events| then events[|events| - limit..] else events;
    }
  }
}
