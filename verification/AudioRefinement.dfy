/** The two loops of `process_audio_events_pre` (engine/audio_instructions.c) as steps of the machine of
    atomic steps, whatever the other threads do in between: what they leave is what the run model by
    blocks says. */
module AudioRefinement {
  import opened Wrappers
  import opened EventOrder
  import opened AudioMessages
  import opened TaskTree
  import opened Protocol
  import AudioRun

  /** The messages a step puts in the ring. */
  function Arrived(s: State, step: Step): seq<Msg>
    requires Linked(s.tasks)
  {
    var fifo := Next(s, step).0.fifo;
    if step.AudioTake? || step.AudioNext? || |fifo| < |s.fifo| then [] else fifo[|s.fifo|..]
  }

  function ArrivedIn(s: State, steps: seq<Step>): seq<Msg>
    requires Inv(s)
    decreases |steps|
  {
    if steps == [] then []
    else
      StepKeeps(s, steps[0]);
      Arrived(s, steps[0]) + ArrivedIn(Next(s, steps[0]).0, steps[1..])
  }

  /** The instructions a run applies, in order. */
  function AppliedIn(s: State, steps: seq<Step>): seq<Msg>
    requires Inv(s)
    decreases |steps|
  {
    if steps == [] then []
    else
      StepKeeps(s, steps[0]);
      var (next, effect) := Next(s, steps[0]);
      (if effect.Applied? then [effect.msg] else []) + AppliedIn(next, steps[1..])
  }

  function Items(es: seq<Entry<Msg>>): (r: seq<Msg>)
    ensures |r| == |es| && forall i :: 0 <= i < |es| ==> r[i] == es[i].item
  {
    if es == [] then [] else [es[0].item] + Items(es[1..])
  }

  // ---- The other threads ---------------------------------------------------------------

  /** Steps of the other threads append to the ring and leave the audio thread alone. */
  lemma OtherStep(s: State, step: Step)
    requires Linked(s.tasks) && !step.AudioTake? && !step.AudioNext?
    ensures var (s', e) := Next(s, step);
            && s'.fifo == s.fifo + Arrived(s, step) && !e.Applied?
            && s'.heap == s.heap && s'.audioSequence == s.audioSequence && s'.table == s.table
  {
    hide Linked;
    hide CancelFrom;
    hide CreateTask;
    hide Insert;
    hide DueCount;
  }

  lemma Associates(a: seq<Msg>, b: seq<Msg>, c: seq<Msg>)
    ensures a + (b + c) == a + b + c
  {
  }

  // ---- The first loop --------------------------------------------------------------------

  function InboxOf(s: State, later: seq<Msg>): AudioRun.Inbox {
    AudioRun.Inbox(s.heap, s.audioSequence, s.fifo + later)
  }

  predicate LosesOne(s: State) {
    s.fifo != [] && |s.heap| >= AUDIO_EVENT_HEAP_MAX
  }

  /** The first loop runs through these steps: it takes messages, among steps of the other threads, until
      it finds the ring empty or the heap full. */
  predicate TakingLoop(s: State, steps: seq<Step>)
    requires Inv(s)
    decreases |steps|
  {
    if steps == [] then s.fifo == []
    else
      StepKeeps(s, steps[0]);
      && !steps[0].AudioNext?
      && if steps[0].AudioTake? && LosesOne(s) then |steps| == 1 else TakingLoop(Next(s, steps[0]).0, steps[1..])
  }

  lemma TakeStep(s: State, later: seq<Msg>)
    requires Linked(s.tasks) && s.fifo != [] && |s.heap| < AUDIO_EVENT_HEAP_MAX
    ensures AudioRun.Drained(InboxOf(s, later)) == AudioRun.Drained(InboxOf(Next(s, AudioTake).0, later))
  {
    hide Linked;
    hide Insert;
    assert (s.fifo + later)[1..] == s.fifo[1..] + later;
  }

  lemma LastTake(s: State)
    requires Linked(s.tasks) && LosesOne(s)
    ensures AudioRun.Drained(InboxOf(s, [])) == InboxOf(Next(s, AudioTake).0, [])
  {
    hide Linked;
    assert s.fifo + [] == s.fifo;
  }

  /** One step, with `later` still to come: the loop ends the same from before and after it. */
  lemma TakingStep(s: State, step: Step, later: seq<Msg>)
    requires Inv(s) && !step.AudioNext? && !(step.AudioTake? && LosesOne(s))
    ensures var s' := Next(s, step).0;
            && AudioRun.Drained(InboxOf(s, Arrived(s, step) + later)) == AudioRun.Drained(InboxOf(s', later))
            && s'.table == s.table && !Next(s, step).1.Applied?
  {
    hide AudioRun.Drained;
    InvLinked(s);
    hide Inv;
    if step.AudioTake? {
      if s.fifo != [] {
        TakeStep(s, later);
      }
      assert [] + later == later;
    } else {
      OtherStep(s, step);
      hide Next;
      hide Arrived;
      Associates(s.fifo, Arrived(s, step), later);
    }
  }

  /** The first loop leaves heap, counter and ring as the run model does with every message that came before
      it ended. */
  lemma {:induction false} TakingRefines(s: State, steps: seq<Step>)
    requires Inv(s) && TakingLoop(s, steps)
    ensures AudioRun.Drained(InboxOf(s, ArrivedIn(s, steps))) == InboxOf(Run(s, steps), [])
    ensures Run(s, steps).table == s.table && AppliedIn(s, steps) == []
    decreases |steps|
  {
    if steps == [] {
    } else {
      InvLinked(s);
      StepKeeps(s, steps[0]);
      hide Inv;
      var next := Next(s, steps[0]).0;
      if steps[0].AudioTake? && LosesOne(s) {
        assert steps == [AudioTake] && steps[1..] == [];
        LastTake(s);
      } else {
        TakingStep(s, steps[0], ArrivedIn(next, steps[1..]));
        hide AudioRun.Drained;
        hide Next;
        hide Arrived;
        TakingRefines(next, steps[1..]);
      }
    }
  }

  // ---- The second loop -------------------------------------------------------------------

  /** The second loop runs through these steps: it takes events before `end`, among steps of the other
      threads, until none is left. */
  predicate ApplyingLoop(s: State, steps: seq<Step>, end: nat)
    requires Inv(s)
    decreases |steps|
  {
    if steps == [] then s.heap == [] || s.heap[0].tick >= end
    else
      StepKeeps(s, steps[0]);
      && !steps[0].AudioTake? && (steps[0].AudioNext? ==> steps[0].end == end)
      && ApplyingLoop(Next(s, steps[0]).0, steps[1..], end)
  }

  function Due(s: State, end: nat): seq<Entry<Msg>> {
    s.heap[..AudioRun.DueBefore(s.heap, end)]
  }

  function NotDue(s: State, end: nat): seq<Entry<Msg>> {
    s.heap[AudioRun.DueBefore(s.heap, end)..]
  }

  lemma DueFirst(s: State, end: nat)
    requires s.heap != [] && s.heap[0].tick < end
    ensures var s' := s.(heap := s.heap[1..]);
            Due(s, end) == [s.heap[0]] + Due(s', end) && NotDue(s, end) == NotDue(s', end)
  {
  }

  /** One event of the second loop. */
  lemma NextStep(s: State, end: nat)
    requires Linked(s.tasks) && s.heap != [] && s.heap[0].tick < end
    ensures var (s', e) := Next(s, AudioNext(end));
            && AudioRun.TableThrough(Due(s, end), s.table) == AudioRun.TableThrough(Due(s', end), s'.table)
            && NotDue(s, end) == NotDue(s', end)
            && Items(AudioRun.Applied(Due(s, end), s.table))
               == (if e.Applied? then [e.msg] else []) + Items(AudioRun.Applied(Due(s', end), s'.table))
            && s'.fifo == s.fifo && s'.audioSequence == s.audioSequence
  {
    hide Linked;
    hide TableAfter;
    hide Applies;
    DueFirst(s, end);
    hide AudioRun.DueBefore;
    var rest := Due(s.(heap := s.heap[1..]), end);
    var applied := AudioRun.Applied(rest, TableAfter(s.table, s.heap[0].item));
    assert ([s.heap[0]] + rest)[1..] == rest;
    assert ([s.heap[0]] + applied)[1..] == applied && [] + applied == applied;
  }

  /** The second loop leaves the events not due, records what the run model records and applies exactly the
      instructions the run model applies. */
  lemma {:induction false} ApplyingRefines(s: State, steps: seq<Step>, end: nat)
    requires Inv(s) && ApplyingLoop(s, steps, end)
    ensures var r := Run(s, steps);
            && r.heap == NotDue(s, end) && r.table == AudioRun.TableThrough(Due(s, end), s.table)
            && r.audioSequence == s.audioSequence && r.fifo == s.fifo + ArrivedIn(s, steps)
    ensures AppliedIn(s, steps) == Items(AudioRun.Applied(Due(s, end), s.table))
    decreases |steps|
  {
    if steps == [] {
      assert Due(s, end) == [];
    } else {
      InvLinked(s);
      StepKeeps(s, steps[0]);
      ApplyingStep(s, steps[0], end);
      hide Inv;
      hide Next;
      hide Arrived;
      hide AudioRun.TableThrough;
      hide AudioRun.Applied;
      hide Due;
      hide NotDue;
      var next := Next(s, steps[0]).0;
      ApplyingRefines(next, steps[1..], end);
      Associates(s.fifo, Arrived(s, steps[0]), ArrivedIn(next, steps[1..]));
    }
  }

  lemma ApplyingStep(s: State, step: Step, end: nat)
    requires Inv(s) && !step.AudioTake? && (step.AudioNext? ==> step.end == end)
    ensures var (s', e) := Next(s, step);
            && AudioRun.TableThrough(Due(s, end), s.table) == AudioRun.TableThrough(Due(s', end), s'.table)
            && NotDue(s, end) == NotDue(s', end)
            && Items(AudioRun.Applied(Due(s, end), s.table))
               == (if e.Applied? then [e.msg] else []) + Items(AudioRun.Applied(Due(s', end), s'.table))
            && s'.fifo == s.fifo + Arrived(s, step) && s'.audioSequence == s.audioSequence
  {
    InvLinked(s);
    hide Inv;
    hide AudioRun.TableThrough;
    hide AudioRun.Applied;
    hide AudioRun.DueBefore;
    if step.AudioNext? {
      if s.heap != [] && s.heap[0].tick < end {
        NextStep(s, end);
        hide Due;
        hide NotDue;
      }
    } else {
      OtherStep(s, step);
      hide Next;
    }
  }

  // ---- Runs of both loops ------------------------------------------------------------------

  /** The steps from the end of one block's loops to the end of the next block's. */
  datatype Round = Round(taking: seq<Step>, applying: seq<Step>, start: nat, frames: nat)

  function StepsOf(rounds: seq<Round>, k: nat): seq<Step>
    requires k <= |rounds|
  {
    if k == 0 then [] else StepsOf(rounds, k - 1) + rounds[k - 1].taking + rounds[k - 1].applying
  }

  /** The machine after the loops of the first `k` blocks. */
  function AtRound(s: State, rounds: seq<Round>, k: nat): (r: State)
    requires Inv(s) && k <= |rounds|
    ensures Inv(r)
  {
    Run(s, StepsOf(rounds, k))
  }

  /** The machine between the two loops of block `k`. */
  function BetweenLoops(s: State, rounds: seq<Round>, k: nat): (r: State)
    requires Inv(s) && k < |rounds|
    ensures Inv(r)
  {
    Run(AtRound(s, rounds, k), rounds[k].taking)
  }

  /** What came during the second loop before is only found by the first loop of block `k`. */
  function Late(s: State, rounds: seq<Round>, k: nat): seq<Msg>
    requires Inv(s) && k <= |rounds|
  {
    if k == 0 then [] else ArrivedIn(BetweenLoops(s, rounds, k - 1), rounds[k - 1].applying)
  }

  function BlockAt(s: State, rounds: seq<Round>, k: nat): AudioRun.Block
    requires Inv(s) && k < |rounds|
  {
    AudioRun.Block(rounds[k].start, rounds[k].frames,
                   Late(s, rounds, k) + ArrivedIn(AtRound(s, rounds, k), rounds[k].taking))
  }

  /** The run by blocks that belongs to a run of the machine. */
  function BlocksOf(s: State, rounds: seq<Round>): seq<AudioRun.Block>
    requires Inv(s)
  {
    seq(|rounds|, k requires 0 <= k < |rounds| => BlockAt(s, rounds, k))
  }

  /** In every round the audio thread goes through its two loops, with any steps of the others between. */
  predicate Plays(s: State, rounds: seq<Round>)
    requires Inv(s)
  {
    forall k :: 0 <= k < |rounds| ==>
                  && TakingLoop(AtRound(s, rounds, k), rounds[k].taking)
                  && ApplyingLoop(BetweenLoops(s, rounds, k), rounds[k].applying, rounds[k].start + rounds[k].frames)
  }

  /** The audio thread has seen nothing yet. */
  predicate Silent(s: State) {
    s.heap == [] && s.audioSequence == 0 && s.fifo == [] && s.table == []
  }

  lemma RunHead(s: State, steps: seq<Step>)
    requires Inv(s) && steps != []
    ensures Linked(s.tasks) && Inv(Next(s, steps[0]).0)
    ensures var (next, effect) := Next(s, steps[0]);
            && Run(s, steps) == Run(next, steps[1..])
            && ArrivedIn(s, steps) == Arrived(s, steps[0]) + ArrivedIn(next, steps[1..])
            && AppliedIn(s, steps) == (if effect.Applied? then [effect.msg] else []) + AppliedIn(next, steps[1..])
  {
    hide Next;
    hide Arrived;
    InvLinked(s);
    hide Inv;
    StepKeeps(s, steps[0]);
  }

  lemma NoSteps(s: State)
    requires Inv(s)
    ensures Run(s, []) == s && ArrivedIn(s, []) == [] && AppliedIn(s, []) == []
  {
  }

  lemma {:induction false} RunAppend(s: State, a: seq<Step>, b: seq<Step>)
    requires Inv(s)
    ensures Run(s, a + b) == Run(Run(s, a), b)
    ensures ArrivedIn(s, a + b) == ArrivedIn(s, a) + ArrivedIn(Run(s, a), b)
    ensures AppliedIn(s, a + b) == AppliedIn(s, a) + AppliedIn(Run(s, a), b)
    decreases |a|
  {
    hide *;
    if a == [] {
      NoSteps(s);
      assert a + b == b;
    } else {
      RunHead(s, a);
      RunHead(s, a + b);
      assert (a + b)[0] == a[0] && (a + b)[1..] == a[1..] + b;
      var (next, effect) := Next(s, a[0]);
      RunAppend(next, a[1..], b);
      Associates(Arrived(s, a[0]), ArrivedIn(next, a[1..]), ArrivedIn(Run(s, a), b));
      Associates(if effect.Applied? then [effect.msg] else [], AppliedIn(next, a[1..]), AppliedIn(Run(s, a), b));
    }
  }

  lemma NextRound(s: State, rounds: seq<Round>, k: nat)
    requires Inv(s) && k < |rounds|
    ensures AtRound(s, rounds, k + 1) == Run(BetweenLoops(s, rounds, k), rounds[k].applying)
    ensures ArrivedIn(s, StepsOf(rounds, k + 1))
         == ArrivedIn(s, StepsOf(rounds, k)) + ArrivedIn(AtRound(s, rounds, k), rounds[k].taking)
            + Late(s, rounds, k + 1)
  {
    hide Inv;
    hide Run;
    hide ArrivedIn;
    RunAppend(s, StepsOf(rounds, k), rounds[k].taking);
    RunAppend(s, StepsOf(rounds, k) + rounds[k].taking, rounds[k].applying);
  }

  lemma StartRefines(s: State, rounds: seq<Round>)
    requires Inv(s) && Silent(s)
    ensures AtRound(s, rounds, 0) == s && Late(s, rounds, 0) == []
    ensures AudioRun.StateAt(BlocksOf(s, rounds), 0) == AudioRun.Audio([], 0, [], [])
    ensures s.heap == [] && s.audioSequence == 0 && s.fifo == [] && s.table == []
  {
    hide Inv;
    NoSteps(s);
  }

  lemma NextState(s: State, rounds: seq<Round>, k: nat)
    requires Inv(s) && k < |rounds|
    ensures |BlocksOf(s, rounds)| == |rounds| && BlocksOf(s, rounds)[k] == BlockAt(s, rounds, k)
    ensures AudioRun.StateAt(BlocksOf(s, rounds), k + 1)
         == AudioRun.AfterBlock(AudioRun.StateAt(BlocksOf(s, rounds), k), BlockAt(s, rounds, k))
  {
    hide Inv;
    hide BlockAt;
    hide AudioRun.AfterBlock;
  }

  /** The state of the audio thread after the first `k` blocks is that of the run by blocks. */
  lemma {:induction false} RoundsRefine(s: State, rounds: seq<Round>, k: nat)
    requires Inv(s) && Silent(s) && Plays(s, rounds) && k <= |rounds|
    ensures var m, a := AtRound(s, rounds, k), AudioRun.StateAt(BlocksOf(s, rounds), k);
            && m.heap == a.heap && m.audioSequence == a.sequence && m.table == a.table
            && m.fifo == a.queue + Late(s, rounds, k)
    decreases k
  {
    hide *;
    StartRefines(s, rounds);
    if k > 0 {
      RoundsRefine(s, rounds, k - 1);
      NextState(s, rounds, k - 1);
      OneRound(s, rounds, k - 1, AudioRun.StateAt(BlocksOf(s, rounds), k - 1));
    }
  }

  /** The first loop of a round does what the run by blocks does with its messages. */
  lemma FirstLoop(s: State, rounds: seq<Round>, k: nat, a: AudioRun.Audio)
    requires Inv(s) && Plays(s, rounds) && k < |rounds|
    requires var m := AtRound(s, rounds, k);
             && m.heap == a.heap && m.audioSequence == a.sequence && m.table == a.table
             && m.fifo == a.queue + Late(s, rounds, k)
    ensures var t := BetweenLoops(s, rounds, k);
            && AudioRun.Drained(AudioRun.Found(a, BlockAt(s, rounds, k)))
               == AudioRun.Inbox(t.heap, t.audioSequence, t.fifo)
            && t.table == a.table && AppliedIn(AtRound(s, rounds, k), rounds[k].taking) == []
  {
    hide Inv;
    hide TakingLoop;
    hide ApplyingLoop;
    hide AppliedIn;
    hide AudioRun.Drained;
    hide AtRound;
    hide ArrivedIn;
    hide Late;
    var m, t := AtRound(s, rounds, k), BetweenLoops(s, rounds, k);
    var here := ArrivedIn(m, rounds[k].taking);
    TakingRefines(m, rounds[k].taking);
    Associates(a.queue, Late(s, rounds, k), here);
    assert AudioRun.Found(a, BlockAt(s, rounds, k)) == InboxOf(m, here);
    assert t.fifo + [] == t.fifo;
  }

  /** The second loop after it does what the run by blocks does with its events. */
  lemma SecondLoop(t: State, steps: seq<Step>, a: AudioRun.Audio, b: AudioRun.Block)
    requires Inv(t) && ApplyingLoop(t, steps, AudioRun.End(b)) && t.table == a.table
    requires AudioRun.Drained(AudioRun.Found(a, b)) == AudioRun.Inbox(t.heap, t.audioSequence, t.fifo)
    ensures var m, r := Run(t, steps), AudioRun.AfterBlock(a, b);
            && m.heap == r.heap && m.audioSequence == r.sequence && m.table == r.table
            && m.fifo == r.queue + ArrivedIn(t, steps)
    ensures AppliedIn(t, steps) == Items(AudioRun.Applied(AudioRun.Taken(a, b), a.table))
    ensures AudioRun.Taken(a, b) == Due(t, AudioRun.End(b))
  {
    hide Inv;
    hide ApplyingLoop;
    hide Run;
    hide ArrivedIn;
    hide AppliedIn;
    hide AudioRun.Drained;
    hide AudioRun.DueBefore;
    hide AudioRun.TableThrough;
    hide AudioRun.Applied;
    hide AudioRun.End;
    hide AudioRun.Found;
    ApplyingRefines(t, steps, AudioRun.End(b));
  }

  lemma PlaysRound(s: State, rounds: seq<Round>, k: nat)
    requires Inv(s) && Plays(s, rounds) && k < |rounds|
    ensures ApplyingLoop(BetweenLoops(s, rounds, k), rounds[k].applying, AudioRun.End(BlockAt(s, rounds, k)))
    ensures Late(s, rounds, k + 1) == ArrivedIn(BetweenLoops(s, rounds, k), rounds[k].applying)
    ensures BetweenLoops(s, rounds, k) == Run(AtRound(s, rounds, k), rounds[k].taking)
  {
    hide Inv;
    hide TakingLoop;
    hide ApplyingLoop;
    hide AtRound;
    hide ArrivedIn;
  }

  lemma OneRound(s: State, rounds: seq<Round>, k: nat, a: AudioRun.Audio)
    requires Inv(s) && Plays(s, rounds) && k < |rounds|
    requires var m := AtRound(s, rounds, k);
             && m.heap == a.heap && m.audioSequence == a.sequence && m.table == a.table
             && m.fifo == a.queue + Late(s, rounds, k)
    ensures var m, r := AtRound(s, rounds, k + 1), AudioRun.AfterBlock(a, BlockAt(s, rounds, k));
            && m.heap == r.heap && m.audioSequence == r.sequence && m.table == r.table
            && m.fifo == r.queue + Late(s, rounds, k + 1)
    ensures AppliedIn(AtRound(s, rounds, k), rounds[k].taking + rounds[k].applying)
         == Items(AudioRun.Applied(AudioRun.Taken(a, BlockAt(s, rounds, k)), a.table))
    ensures AudioRun.Taken(a, BlockAt(s, rounds, k))
         == Due(BetweenLoops(s, rounds, k), AudioRun.End(BlockAt(s, rounds, k)))
  {
    hide *;
    FirstLoop(s, rounds, k, a);
    PlaysRound(s, rounds, k);
    SecondLoop(BetweenLoops(s, rounds, k), rounds[k].applying, a, BlockAt(s, rounds, k));
    RunAppend(AtRound(s, rounds, k), rounds[k].taking, rounds[k].applying);
    NextRound(s, rounds, k);
  }

  /** Block by block the machine applies exactly the instructions that the run by blocks applies, in its
      order. */
  lemma RoundApplies(s: State, rounds: seq<Round>, k: nat)
    requires Inv(s) && Silent(s) && Plays(s, rounds) && k < |rounds|
    ensures var a := AudioRun.StateAt(BlocksOf(s, rounds), k);
            AppliedIn(AtRound(s, rounds, k), rounds[k].taking + rounds[k].applying)
            == Items(AudioRun.Applied(AudioRun.Taken(a, BlocksOf(s, rounds)[k]), a.table))
  {
    hide Inv;
    hide Silent;
    hide Plays;
    hide AudioRun.StateAt;
    RoundsRefine(s, rounds, k);
    OneRound(s, rounds, k, AudioRun.StateAt(BlocksOf(s, rounds), k));
  }

  /** The history of the run by blocks is what came into the ring, in that order. */
  lemma {:induction false} HistoryIsArrivals(s: State, rounds: seq<Round>, k: nat)
    requires Inv(s) && k <= |rounds|
    ensures AudioRun.History(BlocksOf(s, rounds), k) + Late(s, rounds, k) == ArrivedIn(s, StepsOf(rounds, k))
    decreases k
  {
    hide Inv;
    if k > 0 {
      HistoryIsArrivals(s, rounds, k - 1);
      NextRound(s, rounds, k - 1);
      hide ArrivedIn;
      hide AtRound;
      hide BetweenLoops;
      assert BlocksOf(s, rounds)[k - 1] == BlockAt(s, rounds, k - 1);
      Associates(AudioRun.History(BlocksOf(s, rounds), k - 1), Late(s, rounds, k - 1),
                 ArrivedIn(AtRound(s, rounds, k - 1), rounds[k - 1].taking));
    }
  }

  /** What came into the ring until the first loop of block `k` ended, in that order. */
  function Come(s: State, rounds: seq<Round>, k: nat): seq<Msg>
    requires Inv(s) && k < |rounds|
  {
    ArrivedIn(s, StepsOf(rounds, k) + rounds[k].taking)
  }

  lemma HistoryIsCome(s: State, rounds: seq<Round>, k: nat)
    requires Inv(s) && k < |rounds|
    ensures |BlocksOf(s, rounds)| == |rounds| && AudioRun.History(BlocksOf(s, rounds), k + 1) == Come(s, rounds, k)
  {
    hide Inv;
    hide ArrivedIn;
    hide StepsOf;
    hide Late;
    HistoryIsArrivals(s, rounds, k);
    NextState(s, rounds, k);
    RunAppend(s, StepsOf(rounds, k), rounds[k].taking);
    Associates(AudioRun.History(BlocksOf(s, rounds), k), Late(s, rounds, k),
               ArrivedIn(AtRound(s, rounds, k), rounds[k].taking));
  }

  /** In any run of the machine with room in the heap, message number `i` of the ring is taken for its tick in
      block `k` exactly when the tick lies before the end of the block and did not lie before the end of an
      earlier block that found the message. */
  lemma MachineExactlyOnce(s: State, rounds: seq<Round>, k: nat, i: nat)
    requires Inv(s) && Silent(s) && Plays(s, rounds) && AudioRun.Room(BlocksOf(s, rounds))
    requires k < |rounds| && i < |Come(s, rounds, k)|
    ensures var tick := Come(s, rounds, k)[i].tick;
            AudioRun.Numbered(Come(s, rounds, k)[i], i)
              in Due(BetweenLoops(s, rounds, k), rounds[k].start + rounds[k].frames)
            <==> && tick < rounds[k].start + rounds[k].frames
                 && forall j :: 0 <= j < k && i < |Come(s, rounds, j)| ==> tick >= rounds[j].start + rounds[j].frames
  {
    hide *;
    var blocks, x := BlocksOf(s, rounds), AudioRun.Numbered(Come(s, rounds, k)[i], i);
    HistoryIsCome(s, rounds, k);
    TakenIsDue(s, rounds, k);
    NumberedAs(Come(s, rounds, k)[i], i);
    AudioRun.ExactlyOnce(blocks, k, x);
    NotYetMeans(s, rounds, k, i, x.tick);
    EndOf(s, rounds, k);
    assert AudioRun.ArrivedBy(blocks, k, i) by { ArrivedMeans(blocks, k, i); }
  }

  lemma NumberedAs(m: Msg, i: nat)
    ensures AudioRun.Numbered(m, i).tick == m.tick && AudioRun.Numbered(m, i).sequence == i
  {
  }

  lemma ArrivedMeans(blocks: seq<AudioRun.Block>, k: nat, i: nat)
    requires k < |blocks|
    ensures AudioRun.ArrivedBy(blocks, k, i) <==> i < |AudioRun.History(blocks, k + 1)|
  {
  }

  lemma EndOf(s: State, rounds: seq<Round>, k: nat)
    requires Inv(s) && k < |rounds|
    ensures |BlocksOf(s, rounds)| == |rounds|
    ensures AudioRun.End(BlocksOf(s, rounds)[k]) == rounds[k].start + rounds[k].frames
  {
    hide Inv;
  }

  lemma NotYetMeans(s: State, rounds: seq<Round>, k: nat, i: nat, tick: nat)
    requires Inv(s) && k < |rounds| && |BlocksOf(s, rounds)| == |rounds|
    ensures AudioRun.NotYet(BlocksOf(s, rounds), k, i, tick)
        <==> forall j :: 0 <= j < k && i < |Come(s, rounds, j)| ==> tick >= rounds[j].start + rounds[j].frames
  {
    hide Inv;
    hide BlocksOf;
    hide Come;
    hide AudioRun.ArrivedBy;
    hide AudioRun.End;
    forall j | 0 <= j < k
      ensures AudioRun.ArrivedBy(BlocksOf(s, rounds), j, i) <==> i < |Come(s, rounds, j)|
      ensures AudioRun.End(BlocksOf(s, rounds)[j]) == rounds[j].start + rounds[j].frames
    {
      HistoryIsCome(s, rounds, j);
      ArrivedMeans(BlocksOf(s, rounds), j, i);
      EndOf(s, rounds, j);
    }
  }

  /** What the second loop of block `k` finds due is what the run by blocks takes. */
  lemma TakenIsDue(s: State, rounds: seq<Round>, k: nat)
    requires Inv(s) && Silent(s) && Plays(s, rounds) && k < |rounds|
    ensures |BlocksOf(s, rounds)| == |rounds|
    ensures AudioRun.Taken(AudioRun.StateAt(BlocksOf(s, rounds), k), BlocksOf(s, rounds)[k])
         == Due(BetweenLoops(s, rounds, k), rounds[k].start + rounds[k].frames)
  {
    hide *;
    RoundsRefine(s, rounds, k);
    NextState(s, rounds, k);
    OneRound(s, rounds, k, AudioRun.StateAt(BlocksOf(s, rounds), k));
    EndOf(s, rounds, k);
  }

  /** One message pushed, taken and applied in the first block. */
  lemma FirstRound(msg: Msg)
    requires msg.tick < 256 && Applies([], msg)
    ensures var rounds := [Round([PushInstruction(msg), AudioTake], [AudioNext(256)], 0, 256)];
            && Inv(NO_TASKS) && Silent(NO_TASKS) && Plays(NO_TASKS, rounds)
            && AppliedIn(AtRound(NO_TASKS, rounds, 0), rounds[0].taking + rounds[0].applying) == [msg]
  {
    StartState();
    hide Inv;
    hide Applies;
    var rounds := [Round([PushInstruction(msg), AudioTake], [AudioNext(256)], 0, 256)];
    StartRefines(NO_TASKS, rounds);
    var s2 := Taken(msg);
    hide Next;
    Played(s2, msg);
    RunAppend(NO_TASKS, rounds[0].taking, rounds[0].applying);
  }

  lemma Taken(msg: Msg) returns (s2: State)
    ensures Inv(NO_TASKS) && TakingLoop(NO_TASKS, [PushInstruction(msg), AudioTake])
    ensures s2 == Run(NO_TASKS, [PushInstruction(msg), AudioTake])
    ensures s2.heap == [Entry(msg.tick, 0, msg)] && s2.table == []
    ensures AppliedIn(NO_TASKS, [PushInstruction(msg), AudioTake]) == []
  {
    StartState();
    hide Inv;
    var s1 := Next(NO_TASKS, PushInstruction(msg)).0;
    RunHead(NO_TASKS, [PushInstruction(msg), AudioTake]);
    RunHead(s1, [AudioTake]);
    s2 := Next(s1, AudioTake).0;
    NoSteps(s2);
    assert TakingLoop(s2, []);
    assert TakingLoop(s1, [AudioTake]);
  }

  lemma Played(s: State, msg: Msg)
    requires Inv(s) && s.heap == [Entry(msg.tick, 0, msg)] && s.table == [] && msg.tick < 256 && Applies([], msg)
    ensures ApplyingLoop(s, [AudioNext(256)], 256) && AppliedIn(s, [AudioNext(256)]) == [msg]
  {
    InvLinked(s);
    RunHead(s, [AudioNext(256)]);
    hide Inv;
    hide Applies;
    var next := Next(s, AudioNext(256)).0;
    NoSteps(next);
    assert ApplyingLoop(next, [], 256);
  }
}
