/** The two buffers through which the science thread hands graphics data to the
    GUI thread (api/graphics_data.cpp, api/graphics_data.h). */
module DoubleBuffer {
  import opened Wrappers

  datatype State = Idle | Generating | Generated | Rendering | Rendered

  datatype Which = First | Second

  datatype Pair<T> = Pair(b1: T, b2: T) {
    function At(b: Which): T {
      if b == First then b1 else b2
    }

    function With(b: Which, x: T): Pair<T> {
      if b == First then this.(b1 := x) else this.(b2 := x)
    }
  }

  function Other(b: Which): Which {
    if b == First then Second else First
  }

  // ---- whole calls ------------------------------------------------------

  function Find(p: Pair<State>, want: State): Option<Which> {
    if p.b1 == want then Some(First) else if p.b2 == want then Some(Second) else None
  }

  /** The buffer to render from, if any, and the states after the call. */
  function RenderCall(p: Pair<State>): (Pair<State>, Option<Which>) {
    match Find(p, Rendering)
    case Some(b) => (p, Some(b))
    case None =>
      match Find(p, Rendered)
      case Some(b) =>
        (match Find(p, Generated)
         case Some(o) => (p.With(b, Idle).With(o, Rendering), Some(o))
         case None => (p, Some(b)))
      case None =>
        match Find(p, Generated)
        case Some(b) => (p.With(b, Rendering), Some(b))
        case None => (p, None)
  }

  function GenerateCall(p: Pair<State>, first: bool): (Pair<State>, Option<Which>) {
    match Find(p, Generating)
    case Some(b) => (p, Some(b))
    case None =>
      if !first then (p, None)
      else
        match Find(p, Idle)
        case Some(b) => (p.With(b, Generating), Some(b))
        case None => (p, None)
  }

  class GraphicsBuffer {
    var state: State

    constructor ()
      ensures state == Idle
    {
      state := Idle;
    }

    /** For applications to fill in; does not touch `state`. */
    method Clear() {
    }
  }

  class GraphicsDoubleBuffer {
    const b1: GraphicsBuffer
    const b2: GraphicsBuffer

    constructor (x: GraphicsBuffer, y: GraphicsBuffer)
      ensures b1 == x && b2 == y
    {
      b1, b2 := x, y;
    }

    ghost function States(): Pair<State>
      reads b1`state, b2`state
    {
      Pair(b1.state, b2.state)
    }

    ghost predicate Names(b: GraphicsBuffer?, w: Option<Which>) {
      match w
      case None => b == null
      case Some(First) => b == b1
      case Some(Second) => b == b2
    }

    method GetBuffer(want: State) returns (b: GraphicsBuffer?)
      ensures Names(b, Find(States(), want))
    {
      if b1.state == want { return b1; }
      if b2.state == want { return b2; }
      return null;
    }

    method GetRenderBuffer() returns (b: GraphicsBuffer?)
      requires b1 != b2
      modifies b1`state, b2`state
      ensures States() == old(RenderCall(States()).0) && Names(b, old(RenderCall(States()).1))
      ensures b == null <==> {old(b1.state), old(b2.state)} <= {Idle, Generating}
      ensures b != null ==> b in {b1, b2} && (b.state == Rendering || b.state == Rendered)
      ensures Rendering in {old(b1.state), old(b2.state)} ==>
                && b1.state == old(b1.state) && b2.state == old(b2.state)
                && b == if old(b1.state) == Rendering then b1 else b2
      ensures old(b1.state) == Rendered && old(b2.state) == Generated ==>
                b == b2 && b1.state == Idle && b2.state == Rendering
      ensures old(b1.state) == Generated && old(b2.state) == Rendered ==>
                b == b1 && b2.state == Idle && b1.state == Rendering
      ensures Rendered in {old(b1.state), old(b2.state)} && {old(b1.state), old(b2.state)} !! {Rendering, Generated} ==>
                && b1.state == old(b1.state) && b2.state == old(b2.state)
                && b == if old(b1.state) == Rendered then b1 else b2
      ensures Generated in {old(b1.state), old(b2.state)} && {old(b1.state), old(b2.state)} !! {Rendering, Rendered} ==>
                && b == (if old(b1.state) == Generated then b1 else b2) && b.state == Rendering
                && (b == b1 ==> b2.state == old(b2.state)) && (b == b2 ==> b1.state == old(b1.state))
    {
      b := GetBuffer(Rendering);
      if b == null { b := GetBuffer(Rendered); }
      if b == null { b := GetBuffer(Generated); }
      if b != null {
        if b.state == Rendered {
          var other := GetBuffer(Generated);
          if other != null {
            b.Clear();
            b.state := Idle;
            b := other;
            b.state := Rendering;
          }
        } else {
          b.state := Rendering;
        }
      }
    }

    method RenderDone(b: GraphicsBuffer)
      requires b1 != b2 && (b == b1 || b == b2)
      modifies b`state
      ensures States() == old(States()).With(if b == b1 then First else Second, Rendered)
    {
      b.state := Rendered;
    }

    method GetGenerateBuffer(first: bool) returns (b: GraphicsBuffer?)
      requires b1 != b2
      modifies b1`state, b2`state
      ensures States() == old(GenerateCall(States(), first).0) && Names(b, old(GenerateCall(States(), first).1))
      ensures b == null <==>
                Generating !in {old(b1.state), old(b2.state)} && (first ==> Idle !in {old(b1.state), old(b2.state)})
      ensures b != null ==> b in {b1, b2} && b.state == Generating
      ensures Generating in {old(b1.state), old(b2.state)} ==>
                && b1.state == old(b1.state) && b2.state == old(b2.state)
                && b == if old(b1.state) == Generating then b1 else b2
      ensures Generating !in {old(b1.state), old(b2.state)} && b != null ==>
                && b == (if old(b1.state) == Idle then b1 else b2) && (b == b1 ==> old(b1.state) == Idle)
                && (b == b2 ==> old(b2.state) == Idle)
                && (b == b1 ==> b2.state == old(b2.state)) && (b == b2 ==> b1.state == old(b1.state))
    {
      b := GetBuffer(Generating);
      if b == null && first {
        b := GetBuffer(Idle);
        if b != null {
          b.state := Generating;
        }
      }
    }

    method GenerateDone(b: GraphicsBuffer)
      requires b1 != b2 && (b == b1 || b == b2)
      modifies b`state
      ensures States() == old(States()).With(if b == b1 then First else Second, Generated)
    {
      b.state := Generated;
    }
  }

  // ---- single reads and writes ------------------------------------------

  /** Where the GUI thread is. Each of `Find`, `Picked` and `FindOther` is about to
      read a state, `Release` and `Take` are about to write one. */
  datatype RenderAt =
    | Outside
    | Finding(want: State, at: Which)
    | Picked(b: Which)
    | FindingOther(b: Which, at: Which)
    | Release(b: Which, other: Which)
    | Take(b: Which)
    | Show(b: Which)

  /** Where the science thread is. */
  datatype GenerateAt =
    | Away
    | Seeking(want: State, at: Which, first: bool)
    | Mark(b: Which)
    | Fill(b: Which)

  /** Within `get_render_buffer`: one read or write of a state. */
  function RenderStep(p: Pair<State>, pc: RenderAt): (Pair<State>, RenderAt) {
    match pc
    case Finding(want, at) =>
      if p.At(at) == want then (p, Picked(at))
      else if at == First then (p, Finding(want, Second))
      else if want == Rendering then (p, Finding(Rendered, First))
      else if want == Rendered then (p, Finding(Generated, First))
      else (p, Outside)
    case Picked(b) => if p.At(b) == Rendered then (p, FindingOther(b, First)) else (p, Take(b))
    case FindingOther(b, at) =>
      if p.At(at) == Generated then (p, Release(b, at))
      else if at == First then (p, FindingOther(b, Second))
      else (p, Show(b))
    case Release(b, other) => (p.With(b, Idle), Take(other))
    case Take(b) => (p.With(b, Rendering), Show(b))
    case Outside => (p, pc)
    case Show(_) => (p, pc)
  }

  /** Within `get_generate_buffer`: one read or write of a state. */
  function GenerateStep(p: Pair<State>, pc: GenerateAt): (Pair<State>, GenerateAt) {
    match pc
    case Seeking(want, at, first) =>
      if p.At(at) == want then (p, if want == Generating then Fill(at) else Mark(at))
      else if at == First then (p, Seeking(want, Second, first))
      else if want == Generating && first then (p, Seeking(Idle, First, first))
      else (p, Away)
    case Mark(b) => (p.With(b, Generating), Fill(b))
    case Away => (p, pc)
    case Fill(_) => (p, pc)
  }

  function RenderLeft(pc: RenderAt): nat {
    match pc
    case Finding(want, at) =>
      (if want == Rendering then 10 else if want == Rendered then 8 else 6) + if at == First then 1 else 0
    case Picked(_) => 5
    case FindingOther(_, at) => if at == First then 4 else 3
    case Release(_, _) => 2
    case Take(_) => 1
    case Outside => 0
    case Show(_) => 0
  }

  function GenerateLeft(pc: GenerateAt): nat {
    match pc
    case Seeking(want, at, _) => (if want == Generating then 4 else 2) + if at == First then 1 else 0
    case Mark(_) => 1
    case Away => 0
    case Fill(_) => 0
  }

  /** A call that is not interrupted, read by read. */
  function RenderAlone(p: Pair<State>, pc: RenderAt): (Pair<State>, RenderAt)
    decreases RenderLeft(pc)
  {
    if pc.Outside? || pc.Show? then (p, pc) else
      var n := RenderStep(p, pc);
      RenderAlone(n.0, n.1)
  }

  function GenerateAlone(p: Pair<State>, pc: GenerateAt): (Pair<State>, GenerateAt)
    decreases GenerateLeft(pc)
  {
    if pc.Away? || pc.Fill? then (p, pc) else
      var n := GenerateStep(p, pc);
      GenerateAlone(n.0, n.1)
  }

  /** Searching both buffers for a state, read by read. */
  lemma FindReads(p: Pair<State>, want: State)
    requires want == Rendering || want == Rendered || want == Generated
    ensures RenderAlone(p, Finding(want, First)) ==
            if Find(p, want).Some? then RenderAlone(p, Picked(Find(p, want).value))
            else if want == Rendering then RenderAlone(p, Finding(Rendered, First))
            else if want == Rendered then RenderAlone(p, Finding(Generated, First))
            else (p, Outside)
  {
    if p.b1 != want {
      assert RenderAlone(p, Finding(want, First)) == RenderAlone(p, Finding(want, Second));
    }
  }

  /** Where a call leaves the GUI thread. */
  function AfterRender(c: (Pair<State>, Option<Which>)): (Pair<State>, RenderAt) {
    (c.0, if c.1.Some? then Show(c.1.value) else Outside)
  }

  function AfterGenerate(c: (Pair<State>, Option<Which>)): (Pair<State>, GenerateAt) {
    (c.0, if c.1.Some? then Fill(c.1.value) else Away)
  }

  /** Taken without interruption, the reads and writes of a call are the call. */
  lemma RenderCallIsSteps(p: Pair<State>)
    ensures RenderAlone(p, Finding(Rendering, First)) == AfterRender(RenderCall(p))
  {
    FindReads(p, Rendering);
    FindReads(p, Rendered);
    FindReads(p, Generated);
  }

  lemma GenerateCallIsSteps(p: Pair<State>, first: bool)
    ensures GenerateAlone(p, Seeking(Generating, First, first)) == AfterGenerate(GenerateCall(p, first))
  {
    if p.b1 != Generating {
      assert GenerateAlone(p, Seeking(Generating, First, first)) ==
             GenerateAlone(p, Seeking(Generating, Second, first));
    }
    if No(p, Generating) && first {
      assert GenerateAlone(p, Seeking(Generating, Second, first)) == GenerateAlone(p, Seeking(Idle, First, first));
      if p.b1 == Idle {
        assert GenerateAlone(p, Mark(First)).1 == Fill(First);
      } else {
        assert GenerateAlone(p, Seeking(Idle, First, first)) == GenerateAlone(p, Seeking(Idle, Second, first));
        assert GenerateAlone(p, Seeking(Idle, Second, first)) ==
               if p.b2 == Idle then GenerateAlone(p, Mark(Second)) else (p, Away);
        assert GenerateAlone(p, Mark(Second)) == (p.With(Second, Generating), Fill(Second));
      }
    }
  }

  /** Neither buffer is in state `st`. */
  predicate No(p: Pair<State>, st: State) {
    p.b1 != st && p.b2 != st
  }

  // ---- the two threads --------------------------------------------------

  datatype Shown = Shown(b: Which, cycle: nat)

  /** `cycles` is what each buffer was last filled with, `made` the number of cycles
      begun, `finished` those the science thread has declared complete, `shown` what
      `get_render_buffer` has returned. */
  datatype Sys = Sys(states: Pair<State>, cycles: Pair<nat>, made: nat, finished: set<nat>,
                     gui: RenderAt, science: GenerateAt, shown: seq<Shown>)

  datatype Action =
    | CallRender
    | RenderTick
    | RenderDone
    | LeaveRender
    | CallGenerate(first: bool)
    | GenerateTick
    | GenerateDone
    | LeaveGenerate

  function Start(): Sys {
    Sys(Pair(Idle, Idle), Pair(0, 0), 0, {}, Outside, Away, [])
  }

  /** One step of one thread; nothing happens if the thread is elsewhere. */
  function Next(s: Sys, a: Action): Sys {
    match a
    case CallRender => if s.gui.Outside? then s.(gui := Finding(Rendering, First)) else s
    case RenderTick =>
      var (p, pc) := RenderStep(s.states, s.gui);
      s.(states := p, gui := pc,
         shown := if pc.Show? && !s.gui.Show? then s.shown + [Shown(pc.b, s.cycles.At(pc.b))] else s.shown)
    case RenderDone => if s.gui.Show? then s.(states := s.states.With(s.gui.b, Rendered), gui := Outside) else s
    case LeaveRender => if s.gui.Show? then s.(gui := Outside) else s
    case CallGenerate(first) => if s.science.Away? then s.(science := Seeking(Generating, First, first)) else s
    case GenerateTick =>
      var (p, pc) := GenerateStep(s.states, s.science);
      if s.science.Mark? then
        s.(states := p, science := pc, made := s.made + 1, cycles := s.cycles.With(s.science.b, s.made + 1))
      else
        s.(states := p, science := pc)
    case GenerateDone =>
      if s.science.Fill? then
        s.(states := s.states.With(s.science.b, Generated), science := Away, finished := s.finished
          + {s.cycles.At(s.science.b)})
      else s
    case LeaveGenerate => if s.science.Fill? then s.(science := Away) else s
  }

  function Run(s: Sys, acts: seq<Action>): Sys
    decreases |acts|
  {
    if acts == [] then s else Next(Run(s, acts[..|acts| - 1]), acts[|acts| - 1])
  }

  predicate OfGui(st: State) {
    st == Generated || st == Rendering || st == Rendered
  }

  /** What the GUI thread has read still holds. */
  predicate GuiKnows(s: Sys) {
    match s.gui
    case Outside => true
    case Finding(want, at) =>
      && (want == Rendering || want == Rendered || want == Generated)
      && (want != Rendering ==> No(s.states, Rendering)) && (want == Generated ==> No(s.states, Rendered))
      && (at == Second && want != Generated ==> s.states.b1 != want)
    case Picked(b) =>
      OfGui(s.states.At(b)) && (s.states.At(b) == Generated ==> No(s.states, Rendering) && No(s.states, Rendered))
    case FindingOther(b, _) => s.states.At(b) == Rendered
    case Release(b, o) => s.states.At(b) == Rendered && s.states.At(o) == Generated
    case Take(b) =>
      && (s.states.At(b) == Generated || s.states.At(b) == Rendering)
      && s.states.At(Other(b)) != Rendering && s.states.At(Other(b)) != Rendered
    case Show(b) => s.states.At(b) == Rendering || s.states.At(b) == Rendered
  }

  /** What the science thread has read still holds. */
  predicate ScienceKnows(s: Sys) {
    match s.science
    case Away => true
    case Seeking(want, at, _) =>
      && (want == Generating || want == Idle) && (want == Idle ==> No(s.states, Generating))
      && (at == Second && want == Generating ==> s.states.b1 != Generating)
    case Mark(b) => s.states.At(b) == Idle && No(s.states, Generating)
    case Fill(b) => s.states.At(b) == Generating
  }

  /** Each thread works on one buffer at a time, and shown data is complete. */
  predicate Safe(s: Sys) {
    && GuiKnows(s) && ScienceKnows(s)
    && !(s.states.b1 == s.states.b2 == Generating)
    && !((s.states.b1 == Rendering || s.states.b1 == Rendered) && (s.states.b2 == Rendering || s.states.b2 == Rendered))
    && (OfGui(s.states.b1) ==> s.cycles.b1 in s.finished) && (OfGui(s.states.b2) ==> s.cycles.b2 in s.finished)
    && (forall k :: 0 <= k < |s.shown| ==> s.shown[k].cycle in s.finished)
  }

  /** Which buffers a thread is about to write to, or whose data it may touch. */
  predicate GuiHolds(s: Sys, b: Which) {
    match s.gui
    case Outside => false
    case Finding(_, _) => false
    case Picked(c) => b == c
    case FindingOther(c, _) => b == c
    case Release(c, o) => b == c || b == o
    case Take(c) => b == c
    case Show(c) => b == c
  }

  predicate ScienceHolds(s: Sys, b: Which) {
    (s.science.Mark? || s.science.Fill?) && s.science.b == b
  }

  lemma SafeRenderTick(s: Sys)
    requires Safe(s)
    ensures Safe(Next(s, RenderTick))
  {
  }

  lemma SafeGenerateTick(s: Sys)
    requires Safe(s)
    ensures Safe(Next(s, GenerateTick))
  {
  }

  lemma SafeCall(s: Sys, a: Action)
    requires Safe(s) && !a.RenderTick? && !a.GenerateTick?
    ensures Safe(Next(s, a))
  {
  }

  lemma SafeNext(s: Sys, a: Action)
    requires Safe(s)
    ensures Safe(Next(s, a))
  {
    if a.RenderTick? {
      SafeRenderTick(s);
    } else if a.GenerateTick? {
      SafeGenerateTick(s);
    } else {
      SafeCall(s, a);
    }
  }

  /** However the two threads' reads and writes interleave, they never hold the
      same buffer, and only complete cycles are shown. */
  lemma {:induction false} NeverTheSameBuffer(acts: seq<Action>, b: Which)
    ensures Safe(Run(Start(), acts))
    ensures !(GuiHolds(Run(Start(), acts), b) && ScienceHolds(Run(Start(), acts), b))
  {
    if acts != [] {
      NeverTheSameBuffer(acts[..|acts| - 1], b);
      SafeNext(Run(Start(), acts[..|acts| - 1]), acts[|acts| - 1]);
    }
  }

  /** No step of the science thread changes a buffer that the GUI thread holds. */
  lemma ShownDataIsStable(s: Sys, a: Action, b: Which)
    requires Safe(s) && GuiHolds(s, b)
    requires a.CallGenerate? || a.GenerateTick? || a.GenerateDone? || a.LeaveGenerate?
    ensures Next(s, a).states.At(b) == s.states.At(b) && Next(s, a).cycles.At(b) == s.cycles.At(b)
    ensures GuiHolds(Next(s, a), b)
  {
    assert !ScienceHolds(s, b);
  }

  // ---- the order of what is shown ---------------------------------------

  predicate Ordered(shown: seq<Shown>) {
    forall i, j :: 0 <= i < j < |shown| ==> shown[i].cycle <= shown[j].cycle
  }

  predicate OneCycle(shown: seq<Shown>) {
    forall i :: 0 <= i < |shown| ==> shown[i].cycle == shown[0].cycle
  }

  /** A buffer in use holds a cycle of its own; one being filled, the newest. */
  predicate Numbered(s: Sys) {
    && s.cycles.b1 <= s.made && s.cycles.b2 <= s.made
    && (s.states.b1 != Idle && s.states.b2 != Idle ==> s.cycles.b1 != s.cycles.b2)
    && (s.states.b1 == Generating ==> s.cycles.b1 == s.made) && (s.states.b2 == Generating ==> s.cycles.b2 == s.made)
  }

  /** Before anything is shown, the first buffer is filled first. */
  predicate FirstPhase(s: Sys) {
    && No(s.states, Rendering) && No(s.states, Rendered)
    && (s.states.b1 == Idle ==> s.states.b2 == Idle)
    && (s.states.b2 != Idle ==> s.states.b1 == Generated && s.cycles.b1 < s.cycles.b2)
    && (s.science.Seeking? && s.science.want == Idle && s.science.at == Second ==> s.states.b1 == Generated)
    && (s.science == Mark(Second) ==> s.states.b1 == Generated)
  }

  /** If `b` is on show, it is with cycle `last`. */
  predicate OnShowIs(s: Sys, b: Which, last: nat) {
    s.states.At(b) == Rendering || s.states.At(b) == Rendered ==> s.cycles.At(b) == last
  }

  /** If `b` is filled or being filled, it is with a newer cycle than `last`. */
  predicate WaitsWith(s: Sys, b: Which, last: nat) {
    s.states.At(b) == Generated || s.states.At(b) == Generating ==> s.cycles.At(b) > last
  }

  /** Some buffer is on show, or about to be. */
  predicate Current(s: Sys, last: nat) {
    && (s.gui.Take? || !No(s.states, Rendering) || !No(s.states, Rendered))
    && OnShowIs(s, First, last) && OnShowIs(s, Second, last)
  }

  /** Whatever waits is newer than what is on show. */
  predicate Ahead(s: Sys, last: nat) {
    && Ordered(s.shown)
    && WaitsWith(s, First, last) && WaitsWith(s, Second, last)
    && (s.gui.Take? ==> WaitsWith(s, Other(s.gui.b), s.cycles.At(s.gui.b)))
  }

  /** The first buffer still waits with an older cycle than the one on show. */
  predicate Behind(s: Sys, last: nat) {
    && OneCycle(s.shown) && s.states.b1 == Generated && s.cycles.b1 < last
    && (s.states.b2 == Rendering || s.states.b2 == Rendered || s.gui == Take(First))
  }

  predicate InOrder(s: Sys) {
    && Safe(s) && Numbered(s)
    && if s.shown == [] then FirstPhase(s)
       else
         var last := s.shown[|s.shown| - 1].cycle;
         && last <= s.made && Current(s, last)
         && if s.shown[0].b == First then Ahead(s, last) else !Ordered(s.shown) || Behind(s, last)
  }

  lemma {:induction false} OneMoreShown(shown: seq<Shown>, x: Shown)
    ensures Ordered(shown) && (shown == [] || shown[|shown| - 1].cycle <= x.cycle) ==> Ordered(shown + [x])
    ensures !Ordered(shown) || (shown != [] && shown[|shown| - 1].cycle > x.cycle) ==> !Ordered(shown + [x])
    ensures OneCycle(shown) && (shown == [] || shown[|shown| - 1].cycle == x.cycle) ==> OneCycle(shown + [x])
  {
    var more := shown + [x];
    if !Ordered(shown) {
      var i, j :| 0 <= i < j < |shown| && shown[i].cycle > shown[j].cycle;
      assert more[i].cycle > more[j].cycle;
    }
    if shown != [] && shown[|shown| - 1].cycle > x.cycle {
      assert more[|shown| - 1].cycle > more[|shown|].cycle;
    }
  }

  lemma NumberedNext(s: Sys, a: Action)
    requires Safe(s) && Numbered(s)
    ensures Numbered(Next(s, a))
  {
  }

  lemma FirstPhaseNext(s: Sys, a: Action)
    requires InOrder(s) && s.shown == [] && Next(s, a).shown == []
    ensures FirstPhase(Next(s, a))
  {
  }

  lemma FirstShow(s: Sys, a: Action)
    requires InOrder(s) && s.shown == [] && Next(s, a).shown != []
    ensures InOrder(Next(s, a))
  {
    SafeNext(s, a);
    NumberedNext(s, a);
  }

  ghost predicate LastOk(s: Sys, t: Sys) {
    && t.shown != [] && s.shown != [] && t.shown[0] == s.shown[0]
    && t.shown[|t.shown| - 1].cycle <= t.made && Current(t, t.shown[|t.shown| - 1].cycle)
  }

  lemma LastOnTick(s: Sys)
    requires InOrder(s) && s.shown != []
    ensures LastOk(s, Next(s, RenderTick))
  {
  }

  lemma LastOtherwise(s: Sys, a: Action)
    requires InOrder(s) && s.shown != [] && !a.RenderTick?
    ensures LastOk(s, Next(s, a))
  {
  }

  lemma LastMade(s: Sys, a: Action)
    requires InOrder(s) && s.shown != []
    ensures LastOk(s, Next(s, a))
  {
    if a.RenderTick? { LastOnTick(s); } else { LastOtherwise(s, a); }
  }

  lemma AheadQuiet(s: Sys, a: Action)
    requires InOrder(s) && s.shown != [] && s.shown[0].b == First && Next(s, a).shown == s.shown
    ensures Ahead(Next(s, a), s.shown[|s.shown| - 1].cycle)
  {
  }

  lemma AheadShown(s: Sys)
    requires InOrder(s) && s.shown != [] && s.shown[0].b == First
    requires s.gui.Take? || (s.gui.FindingOther? && s.gui.at == Second && s.states.b2 != Generated)
    ensures Ahead(Next(s, RenderTick), s.cycles.At(s.gui.b))
  {
    OneMoreShown(s.shown, Shown(s.gui.b, s.cycles.At(s.gui.b)));
  }

  lemma AheadNext(s: Sys, a: Action)
    requires InOrder(s) && s.shown != [] && s.shown[0].b == First
    ensures var t := Next(s, a); t.shown != [] && Ahead(t, t.shown[|t.shown| - 1].cycle)
  {
    if Next(s, a).shown == s.shown {
      AheadQuiet(s, a);
    } else {
      AheadShown(s);
    }
  }

  lemma BehindOnTick(s: Sys)
    requires InOrder(s) && s.shown != [] && Behind(s, s.shown[|s.shown| - 1].cycle)
    ensures var t := Next(s, RenderTick);
              t.shown != [] && (!Ordered(t.shown) || Behind(t, t.shown[|t.shown| - 1].cycle))
  {
    if s.gui.Take? || s.gui.FindingOther? { OneMoreShown(s.shown, Shown(s.gui.b, s.cycles.At(s.gui.b))); }
  }

  lemma BehindOtherwise(s: Sys, a: Action)
    requires InOrder(s) && s.shown != [] && Behind(s, s.shown[|s.shown| - 1].cycle) && !a.RenderTick?
    ensures Next(s, a).shown == s.shown && Behind(Next(s, a), s.shown[|s.shown| - 1].cycle)
  {
  }

  lemma BackStays(s: Sys, a: Action)
    requires !Ordered(s.shown)
    ensures !Ordered(Next(s, a).shown)
  {
    var t := Next(s, a);
    if t.shown != s.shown {
      OneMoreShown(s.shown, t.shown[|t.shown| - 1]);
      assert t.shown == s.shown + [t.shown[|t.shown| - 1]];
    }
  }

  lemma BehindNext(s: Sys, a: Action)
    requires InOrder(s) && s.shown != [] && s.shown[0].b == Second
    ensures var t := Next(s, a); t.shown != [] && (!Ordered(t.shown) || Behind(t, t.shown[|t.shown| - 1].cycle))
  {
    if !Ordered(s.shown) {
      BackStays(s, a);
    } else if a.RenderTick? {
      BehindOnTick(s);
    } else {
      BehindOtherwise(s, a);
    }
  }

  lemma InOrderNext(s: Sys, a: Action)
    requires InOrder(s)
    ensures InOrder(Next(s, a))
  {
    SafeNext(s, a);
    NumberedNext(s, a);
    if s.shown == [] {
      if Next(s, a).shown == [] { FirstPhaseNext(s, a); } else { FirstShow(s, a); }
    } else {
      LastMade(s, a);
      if s.shown[0].b == First { AheadNext(s, a); } else { BehindNext(s, a); }
    }
  }

  lemma {:induction false} InOrderRun(acts: seq<Action>)
    ensures InOrder(Run(Start(), acts))
  {
    if acts != [] {
      InOrderRun(acts[..|acts| - 1]);
      InOrderNext(Run(Start(), acts[..|acts| - 1]), acts[|acts| - 1]);
    }
  }

  /** On every run, the cycles shown never go back exactly if the first buffer was
      shown first, or only one cycle was shown at all. */
  lemma ShownInOrderIff(acts: seq<Action>)
    ensures var s := Run(Start(), acts);
            s.shown != [] ==> (Ordered(s.shown) <==> s.shown[0].b == First || OneCycle(s.shown))
  {
    InOrderRun(acts);
  }

  predicate ByScience(a: Action) {
    a.CallGenerate? || a.GenerateTick? || a.GenerateDone? || a.LeaveGenerate?
  }

  /** The science thread keeps still between the GUI thread's two reads for a
      generated buffer: so it is whenever calls are atomic. */
  predicate Undisturbed(acts: seq<Action>)
    decreases |acts|
  {
    acts == [] ||
    (var before := acts[..|acts| - 1];
     Undisturbed(before) && (Run(Start(), before).gui == Finding(Generated, Second) ==> !ByScience(acts[|acts| - 1])))
  }

  predicate PicksFirst(s: Sys) {
    if s.shown != [] then s.shown[0].b == First
    else
      && (s.gui == Finding(Generated, Second) ==> s.states.b1 != Generated)
      && (s.gui.Picked? || s.gui.Take? ==> s.gui.b == First)
  }

  lemma PicksFirstNext(s: Sys, a: Action)
    requires InOrder(s) && PicksFirst(s) && (s.gui == Finding(Generated, Second) ==> !ByScience(a))
    ensures PicksFirst(Next(s, a))
  {
  }

  lemma {:induction false} PicksFirstRun(acts: seq<Action>)
    requires Undisturbed(acts)
    ensures PicksFirst(Run(Start(), acts))
  {
    if acts != [] {
      var before := acts[..|acts| - 1];
      PicksFirstRun(before);
      InOrderRun(before);
      PicksFirstNext(Run(Start(), before), acts[|acts| - 1]);
    }
  }

  /** With atomic calls, and even with less, the cycles shown never go back. */
  lemma AtomicCallsKeepOrder(acts: seq<Action>)
    requires Undisturbed(acts)
    ensures Ordered(Run(Start(), acts).shown)
  {
    PicksFirstRun(acts);
    ShownInOrderIff(acts);
  }

  /** The next step of a run. */
  lemma Then(acts: seq<Action>, a: Action) returns (more: seq<Action>)
    ensures more == acts + [a] && Run(Start(), more) == Next(Run(Start(), acts), a)
  {
    more := acts + [a];
    assert more[..|more| - 1] == acts;
  }

  // ---- when what is shown goes back --------------------------------------

  /** The GUI thread, with nothing shown yet, reads the second buffer as generated,
      having read the first as not. */
  predicate WrongPick(s: Sys, a: Action) {
    a == RenderTick && s.gui == Finding(Generated, Second) && s.shown == [] && s.states.b2 == Generated
  }

  predicate WrongPicked(acts: seq<Action>)
    decreases |acts|
  {
    acts != [] &&
    (var before := acts[..|acts| - 1];
     WrongPicked(before) || WrongPick(Run(Start(), before), acts[|acts| - 1]))
  }

  /** The second buffer is, or is about to be, the first that is shown. */
  predicate SecondFirst(s: Sys) {
    if s.shown == [] then s.gui == Picked(Second) || s.gui == Take(Second) else s.shown[0].b == Second
  }

  lemma SecondFirstNext(s: Sys, a: Action)
    requires InOrder(s)
    ensures SecondFirst(Next(s, a)) <==> SecondFirst(s) || WrongPick(s, a)
  {
  }

  lemma {:induction false} WrongPickedIs(acts: seq<Action>)
    ensures WrongPicked(acts) <==> SecondFirst(Run(Start(), acts))
  {
    if acts != [] {
      var before := acts[..|acts| - 1];
      WrongPickedIs(before);
      InOrderRun(before);
      SecondFirstNext(Run(Start(), before), acts[|acts| - 1]);
    }
  }

  /** Without a wrong pick, what is shown never goes back. */
  lemma OrderedWithoutWrongPick(acts: seq<Action>)
    requires !WrongPicked(acts)
    ensures Ordered(Run(Start(), acts).shown)
  {
    WrongPickedIs(acts);
    InOrderRun(acts);
  }

  /** What the GUI thread does next if it always displays all and asks again. */
  function GuiAction(s: Sys): Action {
    if s.gui.Show? then RenderDone else if s.gui.Outside? then CallRender else RenderTick
  }

  /** Steps of the GUI thread until it shows the first buffer. */
  function StepsLeft(s: Sys): nat {
    if s.shown == [] then (if s.gui.Picked? then 16 else 15)
    else
      match s.gui
      case Take(b) => if b == First then 0 else 10
      case Release(_, _) => 1
      case FindingOther(_, at) => if at == First then 2 else 10
      case Picked(_) => if s.states.b2 == Rendered then 3 else 11
      case Finding(want, at) =>
        (if want == Rendered then 4 else if s.states.b2 == Rendered then 6 else 12) + if at == First then 1 else 0
      case Outside => if s.states.b2 == Rendered then 8 else 14
      case Show(_) => 9
  }

  lemma StepTowardsBack(s: Sys)
    requires InOrder(s) && SecondFirst(s) && Ordered(s.shown)
    ensures !Ordered(Next(s, GuiAction(s)).shown) || StepsLeft(Next(s, GuiAction(s))) < StepsLeft(s)
  {
    if s.gui.Take? { OneMoreShown(s.shown, Shown(s.gui.b, s.cycles.At(s.gui.b))); }
  }

  /** From every state after a wrong pick, the GUI thread left to itself goes back
      to an older cycle. */
  lemma {:induction false} WrongPickGoesBack(acts: seq<Action>) returns (more: seq<Action>)
    requires SecondFirst(Run(Start(), acts))
    ensures acts <= more && !Ordered(Run(Start(), more).shown)
    decreases StepsLeft(Run(Start(), acts))
  {
    more := acts;
    var s := Run(Start(), acts);
    if Ordered(s.shown) {
      InOrderRun(acts);
      StepTowardsBack(s);
      SecondFirstNext(s, GuiAction(s));
      more := Then(acts, GuiAction(s));
      if Ordered(Run(Start(), more).shown) {
        more := WrongPickGoesBack(more);
      }
    }
  }

  /** The run makes no wrong pick from its step `n` on. */
  ghost predicate NoWrongPickFrom(acts: seq<Action>, n: nat) {
    forall k :: n <= k < |acts| ==> !WrongPick(Run(Start(), acts[..k]), acts[k])
  }

  lemma {:induction false} WrongPickedBefore(acts: seq<Action>, n: nat)
    requires n <= |acts| && NoWrongPickFrom(acts, n) && WrongPicked(acts)
    ensures WrongPicked(acts[..n])
  {
    if n < |acts| {
      var before := acts[..|acts| - 1];
      assert acts[..|acts| - 1] == before;
      forall k | n <= k < |before| ensures !WrongPick(Run(Start(), before[..k]), before[k]) {
        assert before[..k] == acts[..k];
      }
      WrongPickedBefore(before, n);
      assert before[..n] == acts[..n];
    } else {
      assert acts[..n] == acts;
    }
  }

  lemma {:induction false} NoneAfter(acts: seq<Action>, n: nat)
    requires n <= |acts| && WrongPicked(acts[..n])
    ensures NoWrongPickFrom(acts, n) && WrongPicked(acts)
  {
    if n < |acts| {
      var before := acts[..|acts| - 1];
      assert before[..n] == acts[..n];
      NoneAfter(before, n);
      WrongPickedIs(before);
      forall k | n <= k < |acts| ensures !WrongPick(Run(Start(), acts[..k]), acts[k]) {
        assert k < |before| ==> before[..k] == acts[..k] && before[k] == acts[k];
      }
    } else {
      assert acts[..n] == acts;
    }
  }

  ghost predicate GoesBackIn(acts: seq<Action>, more: seq<Action>) {
    acts <= more && NoWrongPickFrom(more, |acts|) && !Ordered(Run(Start(), more).shown)
  }

  /** A run can still go back, without a wrong pick to come, exactly if it has made one. */
  lemma GoesBackIff(acts: seq<Action>)
    ensures WrongPicked(acts) <==> exists more :: GoesBackIn(acts, more)
  {
    if WrongPicked(acts) {
      WrongPickedIs(acts);
      var more := WrongPickGoesBack(acts);
      assert more[..|acts|] == acts;
      NoneAfter(more, |acts|);
      assert GoesBackIn(acts, more);
    }
    if more :| GoesBackIn(acts, more) {
      if !WrongPicked(more) { OrderedWithoutWrongPick(more); }
      WrongPickedBefore(more, |acts|);
      assert more[..|acts|] == acts;
    }
  }

  /** Filling a buffer, from asking for it to declaring it complete. */
  lemma FillOne(acts: seq<Action>, b: Which) returns (more: seq<Action>)
    requires var s := Run(Start(), acts);
             s.science == Away && s.states == Pair(if b == First then Idle else Generated, Idle)
    ensures var s, t := Run(Start(), acts), Run(Start(), more);
            && t.states == s.states.With(b, Generated) && t.science == Away
            && t.gui == s.gui && t.shown == s.shown
  {
    var s := Run(Start(), acts);
    more := Then(acts, CallGenerate(true));
    more := Then(more, GenerateTick);
    more := Then(more, GenerateTick);
    assert Run(Start(), more) == s.(science := Seeking(Idle, First, true));
    more := Then(more, GenerateTick);
    if b == Second {
      more := Then(more, GenerateTick);
    }
    assert Run(Start(), more) == s.(science := Mark(b));
    more := Then(more, GenerateTick);
    more := Then(more, GenerateDone);
  }

  /** With single reads and writes interleaved, the second buffer can be picked
      first, and what is shown go back: both buffers are filled between the GUI
      thread's two reads for a generated one. */
  lemma ShownGoesBack() returns (acts: seq<Action>)
    ensures !Ordered(Run(Start(), acts).shown)
  {
    acts := Then([], CallRender);
    acts := Then(acts, RenderTick);
    acts := Then(acts, RenderTick);
    acts := Then(acts, RenderTick);
    acts := Then(acts, RenderTick);
    acts := Then(acts, RenderTick);
    assert Run(Start(), acts) == Start().(gui := Finding(Generated, Second));
    acts := FillOne(acts, First);
    acts := FillOne(acts, Second);
    acts := Then(acts, RenderTick);
    acts := Then(acts, RenderTick);
    acts := WrongPickGoesBack(acts);
  }
}
