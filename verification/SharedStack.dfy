/** Coroutines that run on one shared stack and keep a copy of their live bytes while they
    are switched out. The stack grows downwards: the live bytes of a coroutine `depth` deep
    are the last `depth` bytes of the stack. */
module SharedStack {
  import opened Common

  class CoCoroutine {
    var interStack: array<char>     // its length is m_interStackCap
    var interStackSize: nat

    ghost predicate Valid()
      reads this
    {
      interStackSize <= interStack.Length
    }

    ghost function Saved(): seq<char>
      requires Valid()
      reads this, interStack
    {
      interStack[..interStackSize]
    }

    constructor ()
      ensures Valid() && Saved() == [] && fresh(interStack)
    {
      interStack := new char[0];
      interStackSize := 0;
    }
  }

  class CoCoroutineMain {
    const sharedStack: array<char>

    constructor (size: nat)
      ensures sharedStack.Length == size && fresh(sharedStack)
    {
      sharedStack := new char[size];
    }

    /** The copy before the switch: the saved bytes go back to the top of the stack, and
        nothing else changes. */
    method SwapIn(co: CoCoroutine)
      requires co.Valid() && co.interStack != sharedStack
      requires co.interStackSize <= sharedStack.Length
      modifies sharedStack
      ensures co.Valid() && co.Saved() == old(co.Saved())
      ensures sharedStack[..] == Overlay(old(sharedStack[..]), co.Saved())
    {
      var base := sharedStack.Length - co.interStackSize;
      if co.interStackSize != 0 {
        for i := 0 to co.interStackSize
          invariant sharedStack[..base] == old(sharedStack[..base])
          invariant sharedStack[base..base + i] == co.interStack[..i]
          invariant co.interStack[..] == old(co.interStack[..])
        {
          sharedStack[base + i] := co.interStack[i];
        }
      }
      assert sharedStack[..] == sharedStack[..base] + sharedStack[base..];
    }

    /** The copy before the switch out, `depth` bytes deep: exactly the live bytes are
        saved. The array grows when it is too small and is never shrunk. */
    method SwapOut(co: CoCoroutine, depth: nat)
      requires co.Valid() && co.interStack != sharedStack
      requires depth <= sharedStack.Length
      modifies co, co.interStack
      ensures co.Valid() && co.Saved() == Live(sharedStack[..], depth)
      ensures sharedStack[..] == old(sharedStack[..])
      ensures co.interStack == old(co.interStack) || fresh(co.interStack)
      ensures co.interStack.Length >= old(co.interStack.Length)
    {
      if co.interStack.Length < depth {
        co.interStack := new char[depth];
      }
      co.interStackSize := depth;
      var base := sharedStack.Length - depth;
      for i := 0 to depth
        invariant co.interStackSize == depth <= co.interStack.Length && co.interStack != sharedStack
        invariant co.interStack == old(co.interStack) || fresh(co.interStack)
        invariant co.interStack.Length >= old(co.interStack.Length)
        invariant co.interStack[..i] == sharedStack[base..base + i]
        invariant sharedStack[..] == old(sharedStack[..])
      {
        co.interStack[i] := sharedStack[base + i];
      }
    }
  }

  // ---------- the copies as a machine ----------

  function Overlay(stack: seq<char>, top: seq<char>): (r: seq<char>)
    requires |top| <= |stack|
    ensures |r| == |stack|
  {
    stack[..|stack| - |top|] + top
  }

  function Live(stack: seq<char>, depth: nat): (r: seq<char>)
    requires depth <= |stack|
    ensures |r| == depth
  {
    stack[|stack| - depth..]
  }

  /** What makecontext lays at the top of the stack for a new coroutine to return into. */
  datatype Config = Config(size: nat, frame: seq<char>)

  /** One shared stack and the saved copies. */
  datatype Shared = Shared(stack: seq<char>, saved: map<nat, seq<char>>, running: Option<nat>, depth: nat)

  /** A stack for every coroutine. */
  datatype Private = Private(stacks: map<nat, seq<char>>, running: Option<nat>)

  datatype Action =
    | Start(co: nat)          // init_coroutine and swap_in of a coroutine that is ready
    | Resume(co: nat)         // swap_in of a suspended one
    | Push(b: char)           // the running coroutine's own stack use
    | Pop
    | Poke(k: nat, b: char)   // the live byte `k` below the most recent one
    | Scribble(k: nat, b: char)  // a byte of the stack that is not live
    | SwapOut

  function SavedOf(s: Shared, co: nat): seq<char> {
    if co in s.saved then s.saved[co] else []
  }

  /** Which actions the code around the stack allows; the frame at the bottom, into which the
      coroutine's function would return, is never written by the coroutine. */
  predicate Allowed(c: Config, p: Private, a: Action) {
    match a
    case Start(_) => p.running == None
    case Resume(co) => p.running == None && co in p.stacks
    case _ =>
      p.running.Some? && p.running.value in p.stacks &&
      var live := p.stacks[p.running.value];
      match a
      case Push(_) => |live| < c.size
      case Pop => |live| > |c.frame|
      case Poke(k, _) => k + |c.frame| < |live|
      case Scribble(k, _) => k + |live| < c.size
      case _ => true
  }

  function OnPrivate(c: Config, p: Private, a: Action): Private
    requires Allowed(c, p, a)
  {
    match a
    case Start(co) => Private(p.stacks[co := c.frame], Some(co))
    case Resume(co) => p.(running := Some(co))
    case Push(b) => p.(stacks := p.stacks[p.running.value := [b] + p.stacks[p.running.value]])
    case Pop => p.(stacks := p.stacks[p.running.value := p.stacks[p.running.value][1..]])
    case Poke(k, b) => p.(stacks := p.stacks[p.running.value := p.stacks[p.running.value][k := b]])
    case Scribble(_, _) => p
    case SwapOut => p.(running := None)
  }

  /** The copies and writes stay inside the stack. */
  predicate InBounds(c: Config, s: Shared, a: Action) {
    && |c.frame| <= c.size == |s.stack| && s.depth <= c.size
    && match a
       case Start(co) => |SavedOf(s, co)| <= c.size
       case Resume(co) => |SavedOf(s, co)| <= c.size
       case Push(_) => s.depth < c.size
       case Pop => s.depth > 0
       case Poke(k, _) => k < s.depth
       case Scribble(k, _) => k + s.depth < c.size
       case SwapOut => s.running.Some?
  }

  /** The shared form: a start writes the frame and then, like a resume, copies back what
      was saved of the coroutine, even if that is left from an earlier use. */
  function OnShared(c: Config, s: Shared, a: Action): Shared
    requires InBounds(c, s, a)
  {
    match a
    case Start(co) =>
      Shared(Overlay(Overlay(s.stack, c.frame), SavedOf(s, co)), s.saved, Some(co), |c.frame|)
    case Resume(co) =>
      Shared(Overlay(s.stack, SavedOf(s, co)), s.saved, Some(co), |SavedOf(s, co)|)
    case Push(b) => s.(stack := s.stack[c.size - s.depth - 1 := b], depth := s.depth + 1)
    case Pop => s.(depth := s.depth - 1)
    case Poke(k, b) => s.(stack := s.stack[c.size - s.depth + k := b])
    case Scribble(k, b) => s.(stack := s.stack[k := b])
    case SwapOut => s.(saved := s.saved[s.running.value := Live(s.stack, s.depth)], running := None)
  }

  // ---------- refinement ----------

  predicate EndsWith(s: seq<char>, t: seq<char>) {
    |t| <= |s| && s[|s| - |t|..] == t
  }

  ghost predicate Related(c: Config, s: Shared, p: Private) {
    && |c.frame| <= c.size == |s.stack| && s.depth <= c.size
    && s.running == p.running
    && (forall co :: co in p.stacks ==> EndsWith(p.stacks[co], c.frame) && |p.stacks[co]| <= c.size)
    && (forall co :: co in s.saved ==> EndsWith(s.saved[co], c.frame) && |s.saved[co]| <= c.size)
    && (forall co :: co in p.stacks && s.running != Some(co) ==> co in s.saved && s.saved[co] == p.stacks[co])
    && (s.running.Some? ==> s.running.value in p.stacks && Live(s.stack, s.depth) == p.stacks[s.running.value])
  }

  /** Starting a coroutine again copies the bytes saved from its earlier use over the new
      frame; it still finds the frame if and only if those bytes end with it. */
  lemma RestartFindsFrame(stack: seq<char>, frame: seq<char>, saved: seq<char>)
    requires |frame| <= |saved| <= |stack|
    ensures Live(Overlay(Overlay(stack, frame), saved), |frame|) == frame <==> EndsWith(saved, frame)
  {
    var r := Overlay(Overlay(stack, frame), saved);
    assert Live(r, |frame|) == saved[|saved| - |frame|..];
  }

  lemma StartNew(stack: seq<char>, frame: seq<char>)
    requires |frame| <= |stack|
    ensures Live(Overlay(Overlay(stack, frame), []), |frame|) == frame
  {
    assert Overlay(Overlay(stack, frame), []) == Overlay(stack, frame);
  }

  lemma OverlayLive(stack: seq<char>, top: seq<char>)
    requires |top| <= |stack|
    ensures Live(Overlay(stack, top), |top|) == top
  {
  }

  lemma StepInBounds(c: Config, s: Shared, p: Private, a: Action)
    requires Related(c, s, p) && Allowed(c, p, a)
    ensures InBounds(c, s, a)
  {
    hide EndsWith;
    assert p.running.Some? ==> |p.stacks[p.running.value]| == s.depth;
  }

  /** What the live bytes become when the running coroutine uses its stack. */
  lemma LiveAfter(c: Config, s: Shared, a: Action)
    requires InBounds(c, s, a) && (a.Push? || a.Pop? || a.Poke? || a.Scribble?)
    ensures var t, live := OnShared(c, s, a), Live(s.stack, s.depth);
      && |t.stack| == |s.stack| && t.depth <= c.size && t.saved == s.saved && t.running == s.running
      && Live(t.stack, t.depth) ==
         match a
         case Push(b) => [b] + live
         case Pop => live[1..]
         case Poke(k, b) => live[k := b]
         case _ => live
  {
  }

  /** Using the stack never touches the frame at its bottom. */
  lemma FrameKept(live: seq<char>, frame: seq<char>, k: nat, b: char)
    requires EndsWith(live, frame)
    ensures EndsWith([b] + live, frame)
    ensures |live| > |frame| ==> EndsWith(live[1..], frame)
    ensures k + |frame| < |live| ==> EndsWith(live[k := b], frame)
  {
  }

  lemma StartRefines(c: Config, s: Shared, p: Private, co: nat)
    requires Related(c, s, p) && p.running == None
    ensures InBounds(c, s, Start(co))
    ensures Live(OnShared(c, s, Start(co)).stack, |c.frame|) == c.frame
  {
    if co in s.saved {
      RestartFindsFrame(s.stack, c.frame, s.saved[co]);
    } else {
      StartNew(s.stack, c.frame);
    }
  }

  lemma StartStep(c: Config, s: Shared, p: Private, co: nat)
    requires Related(c, s, p) && p.running == None
    ensures InBounds(c, s, Start(co))
    ensures Related(c, OnShared(c, s, Start(co)), OnPrivate(c, p, Start(co)))
  {
    StartRefines(c, s, p, co);
    EndsWithItself(c.frame);
    hide EndsWith, Overlay, Live;
  }

  lemma ResumeStep(c: Config, s: Shared, p: Private, co: nat)
    requires Related(c, s, p) && p.running == None && co in p.stacks
    ensures InBounds(c, s, Resume(co))
    ensures Related(c, OnShared(c, s, Resume(co)), OnPrivate(c, p, Resume(co)))
  {
    hide EndsWith, Overlay, Live;
    OverlayLive(s.stack, s.saved[co]);
  }

  lemma SwapOutStep(c: Config, s: Shared, p: Private)
    requires Related(c, s, p) && p.running.Some?
    ensures InBounds(c, s, SwapOut)
    ensures Related(c, OnShared(c, s, SwapOut), OnPrivate(c, p, SwapOut))
  {
    hide EndsWith, Overlay, Live;
  }

  /** Replacing the running coroutine's live bytes on both sides. */
  lemma LiveReplaced(c: Config, s: Shared, p: Private, t: Shared, live: seq<char>)
    requires Related(c, s, p) && p.running.Some?
    requires |t.stack| == c.size && t.depth <= c.size && t.saved == s.saved && t.running == s.running
    requires Live(t.stack, t.depth) == live && EndsWith(live, c.frame)
    ensures Related(c, t, p.(stacks := p.stacks[p.running.value := live]))
  {
    hide Live, EndsWith;
  }

  lemma UseStep(c: Config, s: Shared, p: Private, a: Action)
    requires Related(c, s, p) && Allowed(c, p, a)
    requires a.Push? || a.Pop? || a.Poke? || a.Scribble?
    ensures InBounds(c, s, a)
    ensures Related(c, OnShared(c, s, a), OnPrivate(c, p, a))
  {
    StepInBounds(c, s, p, a);
    LiveAfter(c, s, a);
    var t, q, live := OnShared(c, s, a), OnPrivate(c, p, a), p.stacks[p.running.value];
    assert live == Live(s.stack, s.depth) && EndsWith(live, c.frame);
    assert q == p.(stacks := p.stacks[p.running.value := q.stacks[p.running.value]]);
    hide Related, InBounds, OnShared, Live, EndsWith;
    FrameKept(live, c.frame, if a.Poke? then a.k else 0, if a.Push? || a.Poke? then a.b else 'x');
    LiveReplaced(c, s, p, t, q.stacks[p.running.value]);
  }

  lemma StepRefines(c: Config, s: Shared, p: Private, a: Action)
    requires Related(c, s, p) && Allowed(c, p, a)
    ensures InBounds(c, s, a)
    ensures Related(c, OnShared(c, s, a), OnPrivate(c, p, a))
  {
    hide Related, InBounds, OnShared, OnPrivate;
    match a
    case Start(co) => StartStep(c, s, p, co);
    case Resume(co) => ResumeStep(c, s, p, co);
    case SwapOut =>
      SwapOutStep(c, s, p);
    case _ => UseStep(c, s, p, a);
  }

  lemma EndsWithItself(s: seq<char>)
    ensures EndsWith(s, s)
  {
  }

  predicate Run(c: Config, acts: seq<Action>)
    decreases |acts|, 0
  {
    acts == [] ||
    (Run(c, acts[..|acts| - 1]) && Allowed(c, PrivateAfter(c, acts[..|acts| - 1]), acts[|acts| - 1]))
  }

  function PrivateAfter(c: Config, acts: seq<Action>): Private
    requires Run(c, acts)
    decreases |acts|, 1
  {
    if acts == [] then Private(map[], None)
    else OnPrivate(c, PrivateAfter(c, acts[..|acts| - 1]), acts[|acts| - 1])
  }

  /** The shared machine runs the same actions, from any initial bytes of the stack. */
  predicate SharedRun(c: Config, stack: seq<char>, acts: seq<Action>)
    decreases |acts|, 0
  {
    acts == [] ||
    (SharedRun(c, stack, acts[..|acts| - 1]) &&
     InBounds(c, SharedAfter(c, stack, acts[..|acts| - 1]), acts[|acts| - 1]))
  }

  function SharedAfter(c: Config, stack: seq<char>, acts: seq<Action>): Shared
    requires SharedRun(c, stack, acts)
    decreases |acts|, 1
  {
    if acts == [] then Shared(stack, map[], None, 0)
    else OnShared(c, SharedAfter(c, stack, acts[..|acts| - 1]), acts[|acts| - 1])
  }

  /** The shared stack refines a private stack per coroutine: whatever private stacks allow
      it can do, within its bounds, and the two stay related. */
  lemma {:induction false} RunRefines(c: Config, stack: seq<char>, acts: seq<Action>)
    requires |c.frame| <= c.size == |stack| && Run(c, acts)
    ensures SharedRun(c, stack, acts)
    ensures Related(c, SharedAfter(c, stack, acts), PrivateAfter(c, acts))
  {
    if acts != [] {
      var front, a := acts[..|acts| - 1], acts[|acts| - 1];
      RunRefines(c, stack, front);
      StepRefines(c, SharedAfter(c, stack, front), PrivateAfter(c, front), a);
    }
  }

  /** Isolation: however coroutines are interleaved, whatever they and others write to the
      shared stack, the one that runs has exactly the live bytes it would have on a stack of
      its own, and every other one has them saved. */
  lemma Isolation(c: Config, stack: seq<char>, acts: seq<Action>, co: nat)
    requires |c.frame| <= c.size == |stack| && Run(c, acts)
    requires co in PrivateAfter(c, acts).stacks
    ensures SharedRun(c, stack, acts)
    ensures var s, p := SharedAfter(c, stack, acts), PrivateAfter(c, acts);
      (if s.running == Some(co) then Live(s.stack, s.depth) else SavedOf(s, co)) == p.stacks[co]
  {
    RunRefines(c, stack, acts);
  }
}
