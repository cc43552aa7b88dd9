/** The streamed component: its logic instance is swapped when the registry's class changes. */
module HotSwap {
  import opened Optional

  /** The class of a logic object: the runtime's own base, or one an author wrote. */
  datatype Class = Base | Author(id: nat)

  datatype Instance = Instance(id: nat, cls: Class)

  /** One registry entry, as far as the lifecycle reads it. */
  datatype Entry = Entry(logic: Option<Class>, ver: int, tpl: bool)

  /** A lifecycle call the component makes on a logic object. */
  datatype Call = DidMount(id: nat) | DidUpdate(id: nat) | WillUnmount(id: nat)

  /** Where the host component is in React's own lifecycle. */
  datatype Phase = Fresh | Mounted | Gone

  /** The component's fields, with every call it has made. */
  datatype State<P> = State(
    phase: Phase, props: P, logic: Instance, needsDidMount: bool, err: bool,
    failedLogic: Option<Class>, failedProps: Option<P>, failedVer: int,
    made: nat, calls: seq<Call>)

  // ----- What each lifecycle method does -----

  function Named(r: Entry): Class {
    if r.logic.Some? then r.logic.value else Base
  }

  /** `__makeLogic`. A constructor that throws leaves a base object and a note of what failed. */
  ghost function MakeLogic<P>(s: State<P>, r: Entry, throws: bool): State<P> {
    var cls := Named(r);
    if throws && cls != Base then
      s.(logic := Instance(s.made, Base), made := s.made + 1,
         failedLogic := r.logic, failedProps := Some(s.props), failedVer := r.ver)
    else
      s.(logic := Instance(s.made, cls), made := s.made + 1, failedLogic := None, failedProps := None)
  }

  /** The class is the one that failed, at the same version and for the same props. `same` is the runtime's shallow
      comparison, which need not hold of a value and itself: NaN is unequal to NaN. */
  ghost predicate Remembered<P>(same: (P, P) -> bool, s: State<P>, r: Entry) {
    r.logic == s.failedLogic && r.ver == s.failedVer && s.failedProps.Some? && same(s.props, s.failedProps.value)
  }

  /** The guard of `__reconcileLogic`: the registry names a class to swap to. */
  ghost predicate Swaps<P>(same: (P, P) -> bool, s: State<P>, r: Entry) {
    && r.logic != Some(s.logic.cls)
    && !(r.logic.None? && s.logic.cls == Base)
    && !Remembered(same, s, r)
  }

  ghost function Reconcile<P>(same: (P, P) -> bool, s: State<P>, r: Entry, throws: bool): State<P> {
    if !Swaps(same, s, r) then s else
    var calls := if s.needsDidMount then s.calls else s.calls + [WillUnmount(s.logic.id)];
    MakeLogic(s.(calls := calls), r, throws).(needsDidMount := true)
  }

  /** `render`, and the error boundary when something below it throws. */
  ghost function Render<P>(same: (P, P) -> bool, s: State<P>, r: Entry, props: P, cycle: bool, throws: bool,
    below: bool): State<P>
  {
    var t := s.(props := props);
    if cycle || t.err then t else
    var u := Reconcile(same, t, r, throws);
    u.(err := r.tpl && below)
  }

  ghost function Commit<P>(s: State<P>, r: Entry): State<P> {
    if s.phase == Fresh then s.(phase := Mounted, calls := s.calls + [DidMount(s.logic.id)])
    else if s.needsDidMount then
      if s.err || !r.tpl then s
      else s.(needsDidMount := false, calls := s.calls + [DidMount(s.logic.id)])
    else s.(calls := s.calls + [DidUpdate(s.logic.id)])
  }

  ghost function Unmount<P>(s: State<P>): State<P> {
    var calls := if s.needsDidMount then s.calls else s.calls + [WillUnmount(s.logic.id)];
    s.(phase := Gone, calls := calls)
  }

  ghost function Start<P>(r: Entry, props: P, throws: bool): State<P> {
    MakeLogic(State(Fresh, props, Instance(0, Base), false, false, None, None, -1, 0, []), r, throws)
  }

  // ----- Runs -----

  /** Renders and commits, each seeing the registry as it then is; React unmounts only what it mounted. */
  datatype Event<P> =
    | Renders(r: Entry, props: P, cycle: bool, throws: bool, below: bool)
    | Commits(r: Entry)
    | Clears
    | Unmounts

  ghost predicate Allowed<P>(s: State<P>, e: Event<P>) {
    s.phase != Gone && (e.Unmounts? ==> s.phase == Mounted)
  }

  ghost function Step<P>(same: (P, P) -> bool, s: State<P>, e: Event<P>): State<P> {
    match e
    case Renders(r, props, cycle, throws, below) => Render(same, s, r, props, cycle, throws, below)
    case Commits(r) => Commit(s, r)
    case Clears => s.(err := false)
    case Unmounts => Unmount(s)
  }

  ghost predicate Possible<P>(same: (P, P) -> bool, s: State<P>, run: seq<Event<P>>)
    decreases |run|
  {
    run == [] || (Allowed(s, run[0]) && Possible(same, Step(same, s, run[0]), run[1..]))
  }

  ghost function After<P>(same: (P, P) -> bool, s: State<P>, run: seq<Event<P>>): State<P>
    decreases |run|
  {
    if run == [] then s else After(same, Step(same, s, run[0]), run[1..])
  }

  /** A render that swaps the logic before the component was ever committed. */
  ghost predicate SwapsEarly<P>(same: (P, P) -> bool, s: State<P>, e: Event<P>) {
    s.phase == Fresh && e.Renders? && !e.cycle && !s.err && Swaps(same, s.(props := e.props), e.r)
  }

  ghost predicate NeverEarly<P>(same: (P, P) -> bool, s: State<P>, run: seq<Event<P>>)
    decreases |run|
  {
    run == [] || (!SwapsEarly(same, s, run[0]) && NeverEarly(same, Step(same, s, run[0]), run[1..]))
  }

  // ----- What the author of a logic class may rely on -----

  /** The call may follow these: one mount, then updates, then one unmount. */
  predicate Fits(before: seq<Call>, c: Call) {
    match c
    case DidMount(id) => DidMount(id) !in before && WillUnmount(id) !in before
    case DidUpdate(id) => DidMount(id) in before && WillUnmount(id) !in before
    case WillUnmount(id) => DidMount(id) in before && WillUnmount(id) !in before
  }

  predicate Proper(calls: seq<Call>) {
    calls == [] || (Proper(calls[..|calls| - 1]) && Fits(calls[..|calls| - 1], calls[|calls| - 1]))
  }

  /** Every object that was mounted has been unmounted, except possibly this one. */
  ghost predicate OthersUnmounted(calls: seq<Call>, id: nat) {
    forall i | DidMount(i) in calls && i != id :: WillUnmount(i) in calls
  }

  ghost predicate Known<P>(s: State<P>) {
    && s.logic.id < s.made
    && forall c | c in s.calls :: c.id < s.made
  }

  /** What every step keeps while no swap comes too early. */
  ghost predicate Inv<P>(s: State<P>) {
    && Proper(s.calls) && Known(s)
    && (s.phase == Fresh ==> s.calls == [] && !s.needsDidMount)
    && (s.phase == Mounted ==>
          && OthersUnmounted(s.calls, s.logic.id) && WillUnmount(s.logic.id) !in s.calls
          && (DidMount(s.logic.id) in s.calls <==> !s.needsDidMount))
    && (s.phase == Gone ==> forall i | DidMount(i) in s.calls :: WillUnmount(i) in s.calls)
  }

  lemma Extends(calls: seq<Call>, c: Call)
    ensures Proper(calls + [c]) <==> Proper(calls) && Fits(calls, c)
  {
    assert (calls + [c])[..|calls|] == calls;
  }

  lemma RenderKeeps<P>(same: (P, P) -> bool, s: State<P>, r: Entry, props: P, cycle: bool, throws: bool, below: bool)
    requires Inv(s) && s.phase != Gone
    requires !SwapsEarly(same, s, Renders(r, props, cycle, throws, below))
    ensures Inv(Render(same, s, r, props, cycle, throws, below))
  {
    hide Proper;
    Extends(s.calls, WillUnmount(s.logic.id));
  }

  lemma CommitKeeps<P>(s: State<P>, r: Entry)
    requires Inv(s) && s.phase != Gone
    ensures Inv(Commit(s, r))
  {
    hide Proper;
    Extends(s.calls, DidMount(s.logic.id));
    Extends(s.calls, DidUpdate(s.logic.id));
  }

  lemma UnmountKeeps<P>(s: State<P>)
    requires Inv(s) && s.phase == Mounted
    ensures Inv(Unmount(s))
  {
    hide Proper;
    Extends(s.calls, WillUnmount(s.logic.id));
  }

  lemma StepKeeps<P>(same: (P, P) -> bool, s: State<P>, e: Event<P>)
    requires Inv(s) && Allowed(s, e) && !SwapsEarly(same, s, e)
    ensures Inv(Step(same, s, e))
  {
    match e
    case Renders(r, props, cycle, throws, below) => RenderKeeps(same, s, r, props, cycle, throws, below);
    case Commits(r) => CommitKeeps(s, r);
    case Clears =>
    case Unmounts => UnmountKeeps(s);
  }

  lemma {:induction false} RunKeeps<P>(same: (P, P) -> bool, s: State<P>, run: seq<Event<P>>)
    requires Inv(s) && Possible(same, s, run) && NeverEarly(same, s, run)
    ensures Inv(After(same, s, run))
    decreases |run|
  {
    if run != [] {
      StepKeeps(same, s, run[0]);
      RunKeeps(same, Step(same, s, run[0]), run[1..]);
    }
  }

  // ----- An early swap is never repaired -----

  lemma StepExtends<P>(same: (P, P) -> bool, s: State<P>, e: Event<P>)
    ensures s.calls <= Step(same, s, e).calls
  {}

  lemma {:induction false} ProperPrefix(calls: seq<Call>, n: nat)
    requires Proper(calls) && n <= |calls|
    ensures Proper(calls[..n])
    decreases |calls|
  {
    if n < |calls| {
      ProperPrefix(calls[..|calls| - 1], n);
      assert calls[..|calls| - 1][..n] == calls[..n];
    } else {
      assert calls[..n] == calls;
    }
  }

  lemma ProperPrefixOf(a: seq<Call>, b: seq<Call>)
    requires Proper(b) && a <= b
    ensures Proper(a)
  {
    ProperPrefix(b, |a|);
    assert b[..|a|] == a;
  }

  lemma {:induction false} ImproperStays<P>(same: (P, P) -> bool, s: State<P>, run: seq<Event<P>>)
    requires !Proper(s.calls)
    ensures !Proper(After(same, s, run).calls)
    decreases |run|
  {
    if run != [] {
      var t := Step(same, s, run[0]);
      StepExtends(same, s, run[0]);
      if Proper(t.calls) {
        ProperPrefixOf(s.calls, t.calls);
      }
      ImproperStays(same, t, run[1..]);
    }
  }

  lemma EarlyIsImproper<P>(same: (P, P) -> bool, s: State<P>, e: Event<P>)
    requires Inv(s) && SwapsEarly(same, s, e)
    ensures !Proper(Step(same, s, e).calls)
  {
    assert s.calls + [WillUnmount(s.logic.id)] == [WillUnmount(s.logic.id)];
    Extends([], WillUnmount(s.logic.id));
    assert [] + [WillUnmount(s.logic.id)] == [WillUnmount(s.logic.id)];
  }

  lemma {:induction false} ProperIffFrom<P>(same: (P, P) -> bool, s: State<P>, run: seq<Event<P>>)
    requires Inv(s) && Possible(same, s, run)
    ensures Proper(After(same, s, run).calls) <==> NeverEarly(same, s, run)
    decreases |run|
  {
    if run != [] {
      if SwapsEarly(same, s, run[0]) {
        EarlyIsImproper(same, s, run[0]);
        ImproperStays(same, Step(same, s, run[0]), run[1..]);
      } else {
        StepKeeps(same, s, run[0]);
        ProperIffFrom(same, Step(same, s, run[0]), run[1..]);
      }
    }
  }

  /** Every logic object is mounted once at most, then unmounted once at most, exactly when no render before the
      first commit finds another class in the registry. */
  lemma ProperIff<P>(same: (P, P) -> bool, r: Entry, props: P, throws: bool, run: seq<Event<P>>)
    requires Possible(same, Start(r, props, throws), run)
    ensures Proper(After(same, Start(r, props, throws), run).calls) <==> NeverEarly(same, Start(r, props, throws), run)
  {
    ProperIffFrom(same, Start(r, props, throws), run);
  }

  /** After the unmount nothing stays mounted. */
  lemma NothingLeft<P>(same: (P, P) -> bool, r: Entry, props: P, throws: bool, run: seq<Event<P>>)
    requires Possible(same, Start(r, props, throws), run) && NeverEarly(same, Start(r, props, throws), run)
    requires After(same, Start(r, props, throws), run).phase == Gone
    ensures forall i :: DidMount(i) in After(same, Start(r, props, throws), run).calls
               <==> WillUnmount(i) in After(same, Start(r, props, throws), run).calls
  {
    var s := After(same, Start(r, props, throws), run);
    RunKeeps(same, Start(r, props, throws), run);
    forall i | WillUnmount(i) in s.calls ensures DidMount(i) in s.calls {
      UnmountedWasMounted(s.calls, i);
    }
  }

  lemma {:induction false} UnmountedWasMounted(calls: seq<Call>, i: nat)
    requires Proper(calls) && WillUnmount(i) in calls
    ensures DidMount(i) in calls
    decreases |calls|
  {
    var n := |calls| - 1;
    if calls[n] != WillUnmount(i) {
      UnmountedWasMounted(calls[..n], i);
    }
  }

  /** The first commit before any change of registry or props. */
  ghost predicate Steady<P>(same: (P, P) -> bool, r: Entry, props: P, run: seq<Event<P>>) {
    run == [] || run[0].Commits?
    || (run[0].Renders? && run[0].r == r && (run[0].props == props || same(run[0].props, props))
        && Steady(same, r, props, run[1..]))
  }

  /** The class the registry names throws when it is made. */
  predicate Fails(r: Entry, throws: bool) {
    throws && Named(r) != Base
  }

  /** Mounting synchronously is enough exactly when the constructor does not throw or the props compare equal to
      themselves. */
  lemma SteadyIff<P(!new)>(same: (P, P) -> bool, r: Entry, props: P, throws: bool)
    ensures (forall run: seq<Event<P>> | Steady(same, r, props, run) :: NeverEarly(same, Start(r, props, throws), run))
       <==> !Fails(r, throws) || same(props, props)
  {
    var s := Start(r, props, throws);
    if !Fails(r, throws) || same(props, props) {
      forall run: seq<Event<P>> | Steady(same, r, props, run) ensures NeverEarly(same, s, run) {
        SteadyFrom(same, s, r, props, run);
      }
    } else {
      var again: seq<Event<P>> := [Renders(r, props, false, true, false)];
      assert again[1..] == [];
      assert Steady(same, r, props, again[1..]) && Steady(same, r, props, again);
      assert SwapsEarly(same, s, again[0]);
      assert exists run: seq<Event<P>> :: Steady(same, r, props, run) && !NeverEarly(same, s, run);
    }
  }

  lemma {:induction false} SteadyFrom<P>(same: (P, P) -> bool, s: State<P>, r: Entry, props: P, run: seq<Event<P>>)
    requires s.phase == Fresh && Steady(same, r, props, run)
    requires s.logic.cls == Named(r)
          || (s.failedLogic == r.logic && s.failedVer == r.ver && s.failedProps == Some(props) && same(props, props))
    ensures NeverEarly(same, s, run)
    decreases |run|
  {
    if run != [] {
      var t := Step(same, s, run[0]);
      if run[0].Commits? {
        OnceMounted(same, t, run[1..]);
      } else {
        SteadyFrom(same, t, r, props, run[1..]);
      }
    }
  }

  /** A number as the runtime compares it. */
  datatype Number = NaN | Finite(n: int)

  predicate StrictlyEqual(a: Number, b: Number) {
    a.Finite? && a == b
  }

  /** A constructor that throws for a NaN: the next render with nothing changed unmounts an object never mounted. */
  lemma NaNSwapsAgain(c: Class)
    requires c != Base
    ensures var r := Entry(Some(c), 1, true);
            var run := [Renders(r, NaN, false, true, false)];
            && Possible(StrictlyEqual, Start(r, NaN, true), run) && Steady(StrictlyEqual, r, NaN, run)
            && After(StrictlyEqual, Start(r, NaN, true), run).calls == [WillUnmount(0)]
  {
    var r := Entry(Some(c), 1, true);
    var run := [Renders(r, NaN, false, true, false)];
    var s := Step(StrictlyEqual, Start(r, NaN, true), run[0]);
    assert run[1..] == [] && Possible(StrictlyEqual, s, run[1..]) && Steady(StrictlyEqual, r, NaN, run[1..]);
    assert After(StrictlyEqual, s, run[1..]) == s;
  }

  lemma {:induction false} OnceMounted<P>(same: (P, P) -> bool, s: State<P>, run: seq<Event<P>>)
    requires s.phase != Fresh
    ensures NeverEarly(same, s, run)
    decreases |run|
  {
    if run != [] {
      OnceMounted(same, Step(same, s, run[0]), run[1..]);
    }
  }

  /** A class that arrives between construction and the first commit: the base object is unmounted though never
      mounted, and the new one is mounted twice. */
  lemma EarlyArrival(same: (int, int) -> bool, c: Class)
    requires c != Base
    ensures var r := Entry(None, 0, true);
            var late := Entry(Some(c), 1, true);
            var again := Renders(late, 0, false, false, false);
            var run := [again, Commits(late), again, Commits(late)];
            && Possible(same, Start(r, 0, false), run)
            && After(same, Start(r, 0, false), run).calls == [WillUnmount(0), DidMount(1), DidMount(1)]
  {
    var r, late := Entry(None, 0, true), Entry(Some(c), 1, true);
    var again := Renders(late, 0, false, false, false);
    var run := [again, Commits(late), again, Commits(late)];
    var s0 := Start(r, 0, false);
    var s2 := Step(same, Step(same, s0, again), Commits(late));
    TwoSteps(same, s0, run);
    TwoSteps(same, s2, run[2..]);
    assert run[2..][0] == again && run[2..][1] == Commits(late) && run[2..][2..] == [];
  }

  lemma TwoSteps<P>(same: (P, P) -> bool, s: State<P>, run: seq<Event<P>>)
    requires |run| >= 2
    ensures var t := Step(same, s, run[0]);
            var u := Step(same, t, run[1]);
            && After(same, s, run) == After(same, u, run[2..])
            && (Possible(same, s, run) <==> Allowed(s, run[0]) && Allowed(t, run[1]) && Possible(same, u, run[2..]))
  {
    assert run[1..][1..] == run[2..];
  }

  // ----- A swap is carried through -----

  /** After a render the component has what the registry names, or it remembers that this failed; the same render
      again swaps only where the constructor has just thrown for props that do not compare equal to themselves. */
  lemma RenderSettles<P>(same: (P, P) -> bool, s: State<P>, r: Entry, props: P, throws: bool, below: bool)
    requires !s.err
    ensures var t := Render(same, s, r, props, false, throws, below);
            var swapped := Swaps(same, s.(props := props), r);
            && t.props == props
            && (Swaps(same, t, r) <==> swapped && Fails(r, throws) && !same(props, props))
            && (swapped && !Fails(r, throws) ==> t.logic.cls == Named(r) && t.failedProps == None)
            && (swapped ==> t.needsDidMount && t.logic.id == s.made)
            && (!swapped ==> t.logic == s.logic && t.calls == s.calls)
  {}

  /** A commit that shows the template leaves the current logic object mounted. */
  lemma CommitMounts<P>(s: State<P>, r: Entry)
    requires Inv(s) && s.phase != Gone && (s.phase == Mounted ==> !s.err && r.tpl)
    ensures var t := Commit(s, r);
            && t.phase == Mounted && !t.needsDidMount && t.logic == s.logic
            && DidMount(t.logic.id) in t.calls && WillUnmount(t.logic.id) !in t.calls
  {
    hide Proper;
    var calls := s.calls + [DidMount(s.logic.id)];
    assert calls[|s.calls|] == DidMount(s.logic.id);
  }

  /** Renders of the same entry and props in which nothing below throws. */
  ghost predicate Repeats<P>(r: Entry, props: P, run: seq<Event<P>>) {
    forall i | 0 <= i < |run| :: run[i].Renders? && run[i].r == r && run[i].props == props && !run[i].below
  }

  /** Once settled, however many renders of the same change nothing. */
  lemma {:induction false} RepeatsSettled<P>(same: (P, P) -> bool, s: State<P>, r: Entry, props: P, run: seq<Event<P>>)
    requires s.props == props && !s.err && !Swaps(same, s, r) && Repeats(r, props, run)
    ensures After(same, s, run) == s
    decreases |run|
  {
    hide Swaps;
    if run != [] {
      assert Step(same, s, run[0]) == s;
      RepeatsSettled(same, s, r, props, run[1..]);
    }
  }

  lemma {:induction false} AfterConcat<P>(same: (P, P) -> bool, s: State<P>, a: seq<Event<P>>, b: seq<Event<P>>)
    ensures After(same, s, a + b) == After(same, After(same, s, a), b)
    decreases |a|
  {
    hide Step;
    if a == [] {
      assert a + b == b;
    } else {
      assert (a + b)[1..] == a[1..] + b;
      AfterConcat(same, Step(same, s, a[0]), a[1..], b);
    }
  }

  lemma AfterOne<P>(same: (P, P) -> bool, s: State<P>, e: Event<P>)
    ensures After(same, s, [e]) == Step(same, s, e)
  {
    hide Step;
    assert [e][1..] == [];
  }

  /** What the registry names arrives: after any run with no early swap, once the error is cleared, a render of this
      entry with its template, any repeats of it, and a commit leave the object of the named class mounted, or one that
      stands in for a class remembered to have failed. */
  lemma ClassArrives<P>(same: (P, P) -> bool, r0: Entry, props0: P, throws0: bool, run: seq<Event<P>>,
    r: Entry, props: P, throws: bool, repeats: seq<Event<P>>)
    requires Possible(same, Start(r0, props0, throws0), run) && NeverEarly(same, Start(r0, props0, throws0), run)
    requires var s := After(same, Start(r0, props0, throws0), run);
             s.phase != Gone && !SwapsEarly(same, s.(err := false), Renders(r, props, false, throws, false))
    requires r.tpl && (!Fails(r, throws) || same(props, props)) && Repeats(r, props, repeats)
    ensures var more := [Clears, Renders(r, props, false, throws, false)] + (repeats + [Commits(r)]);
            var t := After(same, Start(r0, props0, throws0), run + more);
            && t.phase == Mounted && DidMount(t.logic.id) in t.calls && WillUnmount(t.logic.id) !in t.calls
            && (t.logic.cls == Named(r) || Remembered(same, t, r))
  {
    hide Proper, Inv, SwapsEarly, Swaps, Possible, NeverEarly, Repeats, Render, Commit, Start, After, Remembered;
    var start := Start(r0, props0, throws0);
    var s := After(same, start, run);
    var clear, show := Clears, Renders(r, props, false, throws, false);
    StartInv(r0, props0, throws0);
    RunKeeps(same, start, run);
    var s1 := s.(err := false);
    ClearKeeps(s);
    RenderKeeps(same, s1, r, props, false, throws, false);
    RenderSettles(same, s1, r, props, throws, false);
    var s2 := Render(same, s1, r, props, false, throws, false);
    RenderStays(same, s1, r, props, throws);
    RepeatsSettled(same, s2, r, props, repeats);
    CommitMounts(s2, r);
    NotSwapping(same, s2, r);
    AfterConcat(same, start, run, [clear, show] + (repeats + [Commits(r)]));
    AfterConcat(same, s, [clear, show], repeats + [Commits(r)]);
    assert [clear, show] == [clear] + [show];
    AfterConcat(same, s, [clear], [show]);
    AfterOne(same, s, clear);
    AfterOne(same, s1, show);
    AfterConcat(same, s2, repeats, [Commits(r)]);
    AfterOne(same, s2, Commits(r));
    CommitRemembers(same, s2, r);
  }

  lemma StartInv<P>(r: Entry, props: P, throws: bool)
    ensures Inv(Start(r, props, throws))
  {}

  lemma ClearKeeps<P>(s: State<P>)
    requires Inv(s)
    ensures Inv(s.(err := false))
  {}

  lemma RenderStays<P>(same: (P, P) -> bool, s: State<P>, r: Entry, props: P, throws: bool)
    requires !s.err
    ensures var t := Render(same, s, r, props, false, throws, false); !t.err && t.phase == s.phase
  {}

  lemma NotSwapping<P>(same: (P, P) -> bool, s: State<P>, r: Entry)
    requires !Swaps(same, s, r)
    ensures s.logic.cls == Named(r) || Remembered(same, s, r)
  {}

  lemma CommitRemembers<P>(same: (P, P) -> bool, s: State<P>, r: Entry)
    ensures Commit(s, r).logic == s.logic && (Remembered(same, Commit(s, r), r) <==> Remembered(same, s, r))
  {}

  // ----- What each event does, after any run with no early swap -----

  /** A commit updates the object that is mounted, mounts the one that is pending once the template shows with no error,
      and mounts the first one; each exactly once, and it makes no other call. */
  lemma CommitCalls<P>(same: (P, P) -> bool, r0: Entry, props0: P, throws0: bool, run: seq<Event<P>>, r: Entry)
    requires Possible(same, Start(r0, props0, throws0), run) && NeverEarly(same, Start(r0, props0, throws0), run)
    requires After(same, Start(r0, props0, throws0), run).phase != Gone
    ensures var s := After(same, Start(r0, props0, throws0), run);
            var t := After(same, Start(r0, props0, throws0), run + [Commits(r)]);
            && t.logic == s.logic && t.phase == Mounted
            && (s.phase == Fresh ==> t.calls == s.calls + [DidMount(s.logic.id)])
            && (s.phase == Mounted ==>
                  t.calls == s.calls + (if DidMount(s.logic.id) in s.calls then [DidUpdate(s.logic.id)]
                                        else if r.tpl && !s.err then [DidMount(s.logic.id)] else []))
  {
    hide Proper, Start, After, Possible, NeverEarly;
    var start := Start(r0, props0, throws0);
    StartInv(r0, props0, throws0);
    RunKeeps(same, start, run);
    AfterConcat(same, start, run, [Commits(r)]);
    AfterOne(same, After(same, start, run), Commits(r));
  }

  /** React's unmount unmounts the object that is mounted and no other. */
  lemma UnmountCalls<P>(same: (P, P) -> bool, r0: Entry, props0: P, throws0: bool, run: seq<Event<P>>)
    requires Possible(same, Start(r0, props0, throws0), run) && NeverEarly(same, Start(r0, props0, throws0), run)
    requires After(same, Start(r0, props0, throws0), run).phase == Mounted
    ensures var s := After(same, Start(r0, props0, throws0), run);
            var t := After(same, Start(r0, props0, throws0), run + [Unmounts]);
            && t.phase == Gone
            && t.calls == s.calls + (if DidMount(s.logic.id) in s.calls then [WillUnmount(s.logic.id)] else [])
  {
    hide Proper, Start, After, Possible, NeverEarly;
    var start := Start(r0, props0, throws0);
    StartInv(r0, props0, throws0);
    RunKeeps(same, start, run);
    AfterConcat(same, start, run, [Unmounts]);
    AfterOne(same, After(same, start, run), Unmounts);
  }

  /** A render makes a new object exactly when the registry names another class than the current object's and that class
      has not just failed at this version for these props; the old object is unmounted if it was mounted. A cycle or an
      error shown makes none. */
  lemma RenderMakes<P>(same: (P, P) -> bool, r0: Entry, props0: P, throws0: bool, run: seq<Event<P>>,
    r: Entry, props: P, cycle: bool, throws: bool, below: bool)
    requires Possible(same, Start(r0, props0, throws0), run) && NeverEarly(same, Start(r0, props0, throws0), run)
    requires After(same, Start(r0, props0, throws0), run).phase == Mounted
    ensures var s := After(same, Start(r0, props0, throws0), run);
            var t := After(same, Start(r0, props0, throws0), run + [Renders(r, props, cycle, throws, below)]);
            var named := if r.logic.Some? then r.logic.value else Base;
            var failedBefore := s.failedLogic == r.logic && s.failedVer == r.ver
                                && s.failedProps.Some? && same(props, s.failedProps.value);
            && t.props == props && t.phase == Mounted
            && t.err == (if cycle || s.err then s.err else r.tpl && below)
            && if cycle || s.err || named == s.logic.cls || failedBefore then
                 t.logic == s.logic && t.calls == s.calls && t.made == s.made
               else
                 && t.made == s.made + 1 && t.logic == Instance(s.made, if throws then Base else named)
                 && t.calls == s.calls + (if DidMount(s.logic.id) in s.calls then [WillUnmount(s.logic.id)] else [])
                 && DidMount(t.logic.id) !in t.calls
                 && (if throws && named != Base
                     then t.failedLogic == r.logic && t.failedVer == r.ver && t.failedProps == Some(props)
                     else t.failedProps == None)
  {
    hide Proper, Start, After, Possible, NeverEarly;
    var start := Start(r0, props0, throws0);
    StartInv(r0, props0, throws0);
    RunKeeps(same, start, run);
    AfterConcat(same, start, run, [Renders(r, props, cycle, throws, below)]);
    AfterOne(same, After(same, start, run), Renders(r, props, cycle, throws, below));
  }

  /** The constructor makes the first object, of the class the registry then names or a base one where that throws. */
  lemma StartMakes<P>(r: Entry, props: P, throws: bool)
    ensures var s := Start(r, props, throws);
            var named := if r.logic.Some? then r.logic.value else Base;
            && s.phase == Fresh && s.calls == [] && s.props == props && s.made == 1 && !s.err
            && s.logic == Instance(0, if throws then Base else named)
            && (if throws && named != Base
                then s.failedLogic == r.logic && s.failedVer == r.ver && s.failedProps == Some(props)
                else s.failedProps == None)
  {}

  // ----- The component itself -----

  class Component<P> {
    const same: (P, P) -> bool
    var phase: Phase
    var props: P
    var logic: Instance
    var needsDidMount: bool
    var err: bool
    var failedLogic: Option<Class>
    var failedProps: Option<P>
    var failedVer: int
    var made: nat
    var calls: seq<Call>

    ghost function View(): State<P>
      reads this
    {
      State(phase, props, logic, needsDidMount, err, failedLogic, failedProps, failedVer, made, calls)
    }

    constructor (same: (P, P) -> bool, r: Entry, props: P, throws: bool)
      ensures this.same == same && View() == Start(r, props, throws)
    {
      this.same, this.phase, this.props, this.logic := same, Fresh, props, Instance(0, Base);
      needsDidMount, err, failedLogic, failedProps, failedVer, made, calls := false, false, None, None, -1, 0, [];
      new;
      MakeLogicNow(r, throws);
    }

    method MakeLogicNow(r: Entry, throws: bool)
      modifies this
      ensures View() == MakeLogic(old(View()), r, throws)
    {
      var cls := Named(r);
      if throws && cls != Base {
        failedLogic, failedProps, failedVer := r.logic, Some(props), r.ver;
        logic := Instance(made, Base);
      } else {
        logic := Instance(made, cls);
        failedLogic, failedProps := None, None;
      }
      made := made + 1;
    }

    method ReconcileLogic(r: Entry, throws: bool)
      modifies this
      ensures View() == Reconcile(same, old(View()), r, throws)
    {
      hide MakeLogic;
      if r.logic == Some(logic.cls) || (r.logic.None? && logic.cls == Base)
         || (r.logic == failedLogic && r.ver == failedVer && failedProps.Some? && same(props, failedProps.value))
      {
        return;
      }
      if !needsDidMount {
        calls := calls + [WillUnmount(logic.id)];
      }
      MakeLogicNow(r, throws);
      needsDidMount := true;
    }

    method RenderNow(r: Entry, next: P, cycle: bool, throws: bool, below: bool)
      modifies this
      ensures View() == Render(same, old(View()), r, next, cycle, throws, below)
    {
      props := next;
      if cycle || err {
        return;
      }
      ReconcileLogic(r, throws);
      if r.tpl && below {
        err := true;
      }
    }

    method ComponentDidMount(r: Entry)
      requires phase == Fresh
      modifies this
      ensures View() == Commit(old(View()), r)
    {
      phase := Mounted;
      calls := calls + [DidMount(logic.id)];
    }

    method ComponentDidUpdate(r: Entry)
      requires phase == Mounted
      modifies this
      ensures View() == Commit(old(View()), r)
    {
      if needsDidMount {
        if err || !r.tpl {
          return;
        }
        needsDidMount := false;
        calls := calls + [DidMount(logic.id)];
      } else {
        calls := calls + [DidUpdate(logic.id)];
      }
    }

    method ComponentWillUnmount()
      requires phase == Mounted
      modifies this
      ensures View() == Unmount(old(View()))
    {
      if !needsDidMount {
        calls := calls + [WillUnmount(logic.id)];
      }
      phase := Gone;
    }
  }
}
