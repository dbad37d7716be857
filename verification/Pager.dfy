/** The tournaments store: a list filled page by page, where late answers of superseded requests and
    of other organizations must not land. */
module Pager {
  import opened Wrappers

  const PAGE_SIZE := 50

  type Organization = nat
  type Item = string

  datatype State = State(
    organization: Organization, tournaments: seq<Item>, loading: bool, failed: bool, hasMore: bool, generation: nat)

  /** What a call of `load` remembers while it waits for its answer. */
  datatype Request = Request(generation: nat, organization: Organization, offset: nat, append: bool)

  /** The rows of a page, or a failure with its HTTP status (0 when there is none). */
  datatype Answer = Page(items: seq<Item>) | Failure(status: nat)

  // ---------------------------------------------------------------- the store

  function Begin(s: State, append: bool): (State, Request) {
    var generation := s.generation + 1;
    (s.(generation := generation, loading := true, failed := s.failed && append),
     Request(generation, s.organization, if append then |s.tournaments| else 0, append))
  }

  predicate Lands(s: State, r: Request) {
    r.generation == s.generation && r.organization == s.organization
  }

  function End(s: State, r: Request, answer: Answer): State {
    var landed :=
      if !Lands(s, r) then s
      else match answer
        case Page(items) => s.(tournaments := if r.append then s.tournaments + items else items,
                               hasMore := |items| == PAGE_SIZE)
        case Failure(_) => s.(failed := true);
    if r.generation == s.generation then landed.(loading := false) else landed
  }

  function Clear(s: State): State {
    State(s.organization, [], false, false, false, s.generation + 1)
  }

  class TournamentsStore {
    var organization: Organization
    var tournaments: seq<Item>
    var loading: bool
    var failed: bool
    var hasMore: bool
    var generation: nat

    constructor (organization: Organization)
      ensures Contents() == State(organization, [], false, false, false, 0)
    {
      this.organization := organization;
      tournaments, loading, failed, hasMore, generation := [], false, false, false, 0;
    }

    function Contents(): State
      reads this
    {
      State(organization, tournaments, loading, failed, hasMore, generation)
    }

    /** `load` up to its request. */
    method LoadBegin(append: bool) returns (r: Request)
      modifies this
      ensures (Contents(), r) == Begin(old(Contents()), append)
    {
      generation := generation + 1;
      var offset := if append then |tournaments| else 0;
      loading := true;
      if !append {
        failed := false;
      }
      r := Request(generation, organization, offset, append);
    }

    /** `load` from its answer on; some failures are thrown to the caller. */
    method LoadEnd(r: Request, answer: Answer) returns (thrown: bool)
      modifies this
      ensures Contents() == End(old(Contents()), r, answer)
      ensures thrown <==> answer.Failure? && (answer.status == 401 || answer.status == 403)
    {
      thrown := false;
      match answer {
        case Page(items) =>
          if r.generation == generation && r.organization == organization {
            tournaments := if r.append then tournaments + items else items;
            hasMore := |items| == PAGE_SIZE;
          }
        case Failure(status) =>
          if r.generation == generation && r.organization == organization {
            failed := true;
          }
          thrown := status == 401 || status == 403;
      }
      if r.generation == generation {
        loading := false;
      }
    }

    method LoadMore() returns (r: Option<Request>)
      modifies this
      ensures r.Some? <==> old(hasMore && !loading)
      ensures r.Some? ==> (Contents(), r.value) == Begin(old(Contents()), true)
      ensures r.None? ==> Contents() == old(Contents())
    {
      if !hasMore || loading {
        return None;
      }
      var request := LoadBegin(true);
      r := Some(request);
    }

    method ClearAll()
      modifies this
      ensures Contents() == Clear(old(Contents()))
    {
      generation := generation + 1;
      tournaments, loading, failed, hasMore := [], false, false, false;
    }
  }

  // ---------------------------------------------------------------- any interleaving

  type Server = Organization -> seq<Item>

  function PageOf(list: seq<Item>, offset: nat): seq<Item> {
    if |list| <= offset then []
    else if |list| <= offset + PAGE_SIZE then list[offset..]
    else list[offset..offset + PAGE_SIZE]
  }

  /** The store and the requests still waiting, by generation. */
  datatype Sys = Sys(state: State, waiting: map<nat, Request>)

  datatype Step =
    | Load(append: bool)
    | More
    | ClearList
    | Switch(organization: Organization)
    | Answered(generation: nat)
    | Failed(generation: nat, status: nat)

  predicate Enabled(s: Sys, step: Step) {
    match step
    case Answered(generation) => generation in s.waiting
    case Failed(generation, _) => generation in s.waiting
    case _ => true
  }

  function Send(s: Sys, append: bool): Sys {
    var (state, r) := Begin(s.state, append);
    Sys(state, s.waiting[r.generation := r])
  }

  function Do(server: Server, s: Sys, step: Step): Sys
    requires Enabled(s, step)
  {
    match step
    case Load(append) => Send(s, append)
    case More => if s.state.hasMore && !s.state.loading then Send(s, true) else s
    case ClearList => s.(state := Clear(s.state))
    case Switch(organization) => s.(state := s.state.(organization := organization))
    case Answered(generation) =>
      var r := s.waiting[generation];
      Sys(End(s.state, r, Page(PageOf(server(r.organization), r.offset))), s.waiting - {generation})
    case Failed(generation, status) =>
      Sys(End(s.state, s.waiting[generation], Failure(status)), s.waiting - {generation})
  }

  ghost predicate Runs(server: Server, s: Sys, steps: seq<Step>)
    decreases |steps|
  {
    steps == [] || (Enabled(s, steps[0]) && Runs(server, Do(server, s, steps[0]), steps[1..]))
  }

  ghost function After(server: Server, s: Sys, steps: seq<Step>): Sys
    requires Runs(server, s, steps)
    decreases |steps|
  {
    if steps == [] then s else After(server, Do(server, s, steps[0]), steps[1..])
  }

  /** The list is what the server has, from the beginning and without gaps or repetitions. */
  predicate Consistent(server: Server, s: Sys) {
    s.state.tournaments <= server(s.state.organization)
  }

  ghost predicate Inv(s: Sys) {
    (forall g :: g in s.waiting ==> s.waiting[g].generation == g && g <= s.state.generation) &&
    (s.state.loading <==> s.state.generation in s.waiting) &&
    (s.state.generation in s.waiting ==>
       var r := s.waiting[s.state.generation]; r.offset == if r.append then |s.state.tournaments| else 0)
  }

  /** The list is replaced as a whole: by a clear, or by the answer to a fresh load that lands. */
  predicate Replaces(s: Sys, step: Step)
    requires Enabled(s, step)
  {
    step.ClearList? ||
    (step.Answered? && Lands(s.state, s.waiting[step.generation]) && !s.waiting[step.generation].append)
  }

  /** A change of organization keeps the list right only if the old list happens to fit; after it only a
      replacement repairs a wrong list, and nothing spoils a right one. */
  lemma StepKeeps(server: Server, s: Sys, step: Step)
    requires Inv(s) && Enabled(s, step)
    ensures Inv(Do(server, s, step))
    ensures step.Switch? ==>
      (Consistent(server, Do(server, s, step)) <==> s.state.tournaments <= server(step.organization))
    ensures !step.Switch? ==>
      (Consistent(server, Do(server, s, step)) <==> Consistent(server, s) || Replaces(s, step))
  {
  }

  lemma {:induction false} LastStep(server: Server, s: Sys, steps: seq<Step>, n: nat)
    requires Runs(server, s, steps) && |steps| == n + 1
    ensures Runs(server, s, steps[..n]) && Enabled(After(server, s, steps[..n]), steps[n])
    ensures After(server, s, steps) == Do(server, After(server, s, steps[..n]), steps[n])
    decreases n
  {
    if n > 0 {
      assert steps[1..][..n - 1] == steps[..n][1..];
      LastStep(server, Do(server, s, steps[0]), steps[1..], n - 1);
    }
  }

  /** Since the last change of organization the list has been replaced, or it fitted the new organization. */
  ghost predicate Settled(server: Server, s: Sys, steps: seq<Step>)
    requires Runs(server, s, steps)
    decreases |steps|
  {
    |steps| == 0 ||
    var n := |steps| - 1;
    LastStep(server, s, steps, n);
    var before := After(server, s, steps[..n]);
    if steps[n].Switch? then before.state.tournaments <= server(steps[n].organization)
    else Replaces(before, steps[n]) || Settled(server, s, steps[..n])
  }

  lemma {:induction false} RunKeeps(server: Server, s: Sys, steps: seq<Step>)
    requires Inv(s) && Consistent(server, s) && Runs(server, s, steps)
    ensures Inv(After(server, s, steps))
    ensures Consistent(server, After(server, s, steps)) <==> Settled(server, s, steps)
    decreases |steps|
  {
    if |steps| > 0 {
      var n := |steps| - 1;
      LastStep(server, s, steps, n);
      RunKeeps(server, s, steps[..n]);
      StepKeeps(server, After(server, s, steps[..n]), steps[n]);
    }
  }

  function Empty(organization: Organization): Sys {
    Sys(State(organization, [], false, false, false, 0), map[])
  }

  /** In any interleaving of loads, clears, changes of organization, late answers and failures, the list is a
      gap-free prefix of the current organization's exactly when, since the last change, it was cleared, or a
      fresh load landed, or it fitted as it was. */
  lemma PrefixExactly(server: Server, organization: Organization, steps: seq<Step>)
    requires Runs(server, Empty(organization), steps)
    ensures var s := After(server, Empty(organization), steps);
      s.state.tournaments <= server(s.state.organization) <==> Settled(server, Empty(organization), steps)
  {
    RunKeeps(server, Empty(organization), steps);
  }

  /** In any such interleaving `loading` is exactly the existence of an unanswered request of the current
      generation. */
  lemma LoadingIsOutstanding(server: Server, organization: Organization, steps: seq<Step>)
    requires Runs(server, Empty(organization), steps)
    ensures var s := After(server, Empty(organization), steps);
      s.state.loading <==> s.state.generation in s.waiting
  {
    RunKeeps(server, Empty(organization), steps);
  }

  // What the other two flags say.

  /** A fresh load has landed since the list was last cleared and the organization last changed. */
  ghost predicate LoadedAfresh(server: Server, s: Sys, steps: seq<Step>)
    requires Runs(server, s, steps)
    decreases |steps|
  {
    |steps| > 0 &&
    var n := |steps| - 1;
    LastStep(server, s, steps, n);
    var before := After(server, s, steps[..n]);
    !steps[n].Switch? && !steps[n].ClearList? && (Replaces(before, steps[n]) || LoadedAfresh(server, s, steps[..n]))
  }

  /** Without more to load the list is all the server has; with more it is made of full pages of 50. */
  predicate TellsTheRest(server: Server, s: Sys) {
    if s.state.hasMore then |s.state.tournaments| > 0 && |s.state.tournaments| % 50 == 0
    else s.state.tournaments == server(s.state.organization)
  }

  lemma StepTells(server: Server, s: Sys, step: Step)
    requires Inv(s) && Enabled(s, step) && !step.Switch? && !step.ClearList?
    requires Replaces(s, step) || (Consistent(server, s) && TellsTheRest(server, s))
    ensures Consistent(server, Do(server, s, step)) && TellsTheRest(server, Do(server, s, step))
  {
    StepKeeps(server, s, step);
  }

  /** Once a fresh load has landed, and until the next clear or change of organization, `hasMore` can be relied on:
      when it is off, nothing is missing. */
  lemma {:induction false} NoMoreMeansAll(server: Server, organization: Organization, steps: seq<Step>)
    requires Runs(server, Empty(organization), steps) && LoadedAfresh(server, Empty(organization), steps)
    ensures var s := After(server, Empty(organization), steps); Consistent(server, s) && TellsTheRest(server, s)
    decreases |steps|
  {
    var n := |steps| - 1;
    LastStep(server, Empty(organization), steps, n);
    RunKeeps(server, Empty(organization), steps[..n]);
    var before := After(server, Empty(organization), steps[..n]);
    if !Replaces(before, steps[n]) {
      NoMoreMeansAll(server, organization, steps[..n]);
    }
    StepTells(server, before, steps[n]);
  }

  /** A page has landed since the list was last cleared. */
  ghost predicate LandedSince(server: Server, s: Sys, steps: seq<Step>)
    requires Runs(server, s, steps)
    decreases |steps|
  {
    |steps| > 0 &&
    var n := |steps| - 1;
    LastStep(server, s, steps, n);
    var before := After(server, s, steps[..n]);
    match steps[n]
    case ClearList => false
    case Answered(g) => Lands(before.state, before.waiting[g]) || LandedSince(server, s, steps[..n])
    case _ => LandedSince(server, s, steps[..n])
  }

  /** Until then the list is empty and there is no more to load. */
  lemma {:induction false} EmptyUntilAPageLands(server: Server, organization: Organization, steps: seq<Step>)
    requires Runs(server, Empty(organization), steps) && !LandedSince(server, Empty(organization), steps)
    ensures var s := After(server, Empty(organization), steps); s.state.tournaments == [] && !s.state.hasMore
    decreases |steps|
  {
    if |steps| > 0 {
      LastStep(server, Empty(organization), steps, |steps| - 1);
      if !steps[|steps| - 1].ClearList? {
        EmptyUntilAPageLands(server, organization, steps[..|steps| - 1]);
      }
    }
  }

  /** `loadMore` sends nothing, and changes nothing, exactly when there is no more or something is loading. */
  lemma MoreExactly(server: Server, s: Sys)
    ensures Do(server, s, More) == s <==> !s.state.hasMore || s.state.loading
  {
  }

  /** A failure of a current request has come in since the last fresh load was sent and the list last cleared. */
  ghost predicate FailedSince(server: Server, s: Sys, steps: seq<Step>)
    requires Runs(server, s, steps)
    decreases |steps|
  {
    |steps| > 0 &&
    var n := |steps| - 1;
    LastStep(server, s, steps, n);
    var state, waiting := After(server, s, steps[..n]).state, After(server, s, steps[..n]).waiting;
    match steps[n]
    case ClearList => false
    case Load(append) => append && FailedSince(server, s, steps[..n])
    case Failed(g, _) =>
      || (waiting[g].generation == state.generation && waiting[g].organization == state.organization)
      || FailedSince(server, s, steps[..n])
    case _ => FailedSince(server, s, steps[..n])
  }

  /** The error is shown exactly then: later pages, late failures and changes of organization make no difference. */
  lemma {:induction false} FailedExactly(server: Server, organization: Organization, steps: seq<Step>)
    requires Runs(server, Empty(organization), steps)
    ensures After(server, Empty(organization), steps).state.failed <==>
            FailedSince(server, Empty(organization), steps)
    decreases |steps|
  {
    if |steps| > 0 {
      LastStep(server, Empty(organization), steps, |steps| - 1);
      FailedExactly(server, organization, steps[..|steps| - 1]);
    }
  }

  predicate ClearedFirst(steps: seq<Step>) {
    forall k :: 0 <= k < |steps| && steps[k].Switch? ==> k > 0 && steps[k - 1].ClearList?
  }

  lemma {:induction false} ClearedFirstSettles(server: Server, s: Sys, steps: seq<Step>)
    requires Runs(server, s, steps) && ClearedFirst(steps)
    ensures Settled(server, s, steps)
    decreases |steps|
  {
    if |steps| > 0 {
      var n := |steps| - 1;
      LastStep(server, s, steps, n);
      if steps[n].Switch? {
        LastStep(server, s, steps[..n], n - 1);
      } else {
        ClearedFirstSettles(server, s, steps[..n]);
      }
    }
  }

  /** A clear right before every change of organization is enough, whatever else happens. */
  lemma ClearingIsEnough(server: Server, organization: Organization, steps: seq<Step>)
    requires Runs(server, Empty(organization), steps) && ClearedFirst(steps)
    ensures var s := After(server, Empty(organization), steps);
      s.state.tournaments <= server(s.state.organization)
  {
    PrefixExactly(server, organization, steps);
    ClearedFirstSettles(server, Empty(organization), steps);
  }

  // ---------------------------------------------------------------- a fresh load is not a clear

  /** When the fresh load that follows a change of organization fails, the old list stays and the next
      page of the new organization is appended to it. */
  lemma FailedFreshLoadMixes(server: Server, a: Organization, b: Organization)
    requires a != b && |server(a)| == PAGE_SIZE && |server(b)| > PAGE_SIZE && server(a)[0] != server(b)[0]
    ensures var steps := [Load(false), Answered(1), Switch(b), Load(false), Failed(2, 500), More, Answered(3)];
      Runs(server, Empty(a), steps) &&
      var s := After(server, Empty(a), steps);
      s.state.organization == b && s.state.tournaments == server(a) + PageOf(server(b), PAGE_SIZE) &&
      !Consistent(server, s)
  {
    var first := Do(server, Do(server, Empty(a), Load(false)), Answered(1));
    assert first.state.tournaments == server(a) && first.state.hasMore;
    var switched := Do(server, Do(server, first, Switch(b)), Load(false));
    var failed := Do(server, switched, Failed(2, 500));
    var mixed := Do(server, Do(server, failed, More), Answered(3));
    TwoSteps(server, failed, More, Answered(3), []);
    assert Runs(server, switched, [Failed(2, 500), More, Answered(3)])
        && After(server, switched, [Failed(2, 500), More, Answered(3)]) == mixed by {
      assert [Failed(2, 500), More, Answered(3)][1..] == [More, Answered(3)] + [];
    }
    TwoSteps(server, first, Switch(b), Load(false), [Failed(2, 500), More, Answered(3)]);
    TwoSteps(server, Empty(a), Load(false), Answered(1),
      [Switch(b), Load(false)] + [Failed(2, 500), More, Answered(3)]);
    assert [Load(false), Answered(1)] + ([Switch(b), Load(false)] + [Failed(2, 500), More, Answered(3)])
        == [Load(false), Answered(1), Switch(b), Load(false), Failed(2, 500), More, Answered(3)];
    assert mixed.state.tournaments[0] == server(a)[0];
  }

  // ---------------------------------------------------------------- how many requests

  function Rounds(n: nat, generation: nat): seq<Step> {
    if n == 0 then [] else [More, Answered(generation + 1)] + Rounds(n - 1, generation + 1)
  }

  lemma TwoSteps(server: Server, s: Sys, a: Step, b: Step, rest: seq<Step>)
    requires Enabled(s, a) && Enabled(Do(server, s, a), b) && Runs(server, Do(server, Do(server, s, a), b), rest)
    ensures Runs(server, s, [a, b] + rest)
    ensures After(server, s, [a, b] + rest) == After(server, Do(server, Do(server, s, a), b), rest)
  {
    assert ([a, b] + rest)[1..] == [b] + rest && ([b] + rest)[1..] == rest;
  }

  lemma {:induction false} MoreUntilTheEnd(server: Server, s: Sys, pages: nat)
    requires s.waiting == map[] && !s.state.loading && s.state.hasMore
    requires var list := server(s.state.organization);
      PAGE_SIZE * pages <= |list| && s.state.tournaments == list[..PAGE_SIZE * pages]
    ensures var list := server(s.state.organization);
      var steps := Rounds(|list| / PAGE_SIZE + 1 - pages, s.state.generation);
      Runs(server, s, steps) && After(server, s, steps).state.tournaments == list &&
      !After(server, s, steps).state.hasMore
    decreases |server(s.state.organization)| - PAGE_SIZE * pages
  {
    var list, g := server(s.state.organization), s.state.generation;
    var n := |list| / PAGE_SIZE + 1 - pages;
    var s1 := Do(server, s, More);
    var s2 := Do(server, s1, Answered(g + 1));
    assert s2.waiting == map[];
    assert Rounds(n, g) == [More, Answered(g + 1)] + Rounds(n - 1, g + 1);
    if |list| >= PAGE_SIZE * (pages + 1) {
      assert s2.state.tournaments == list[..PAGE_SIZE * (pages + 1)];
      MoreUntilTheEnd(server, s2, pages + 1);
    } else {
      assert s2.state.tournaments == list;
      assert Rounds(n - 1, g + 1) == [];
    }
    TwoSteps(server, s, More, Answered(g + 1), Rounds(n - 1, g + 1));
  }

  /** A fresh load and then `loadMore` as long as there is more gets the whole list, of n items, in
      n / 50 + 1 requests: an exact multiple of the page size costs one empty page. */
  lemma WholeListInPages(server: Server, organization: Organization)
    ensures var list := server(organization);
      var steps := [Load(false), Answered(1)] + Rounds(|list| / 50, 1);
      Runs(server, Empty(organization), steps) &&
      After(server, Empty(organization), steps).state.tournaments == list &&
      !After(server, Empty(organization), steps).state.hasMore
  {
    var list, s := server(organization), Empty(organization);
    var s1 := Do(server, s, Load(false));
    var s2 := Do(server, s1, Answered(1));
    assert s2.waiting == map[];
    if |list| >= PAGE_SIZE {
      MoreUntilTheEnd(server, s2, 1);
    } else {
      assert s2.state.tournaments == list;
      assert Rounds(0, 1) == [];
    }
    TwoSteps(server, s, Load(false), Answered(1), Rounds(|list| / PAGE_SIZE, 1));
  }
}
