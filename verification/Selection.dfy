/**
  Candidate selection of `src/ficelle/selection.py` with the competence gate of
  `src/ficelle/routing_policy.py`: which catalog rows may answer, in which order, and why the others not.

  The policies behind it, scores and profile requirements among them, are parameters.
 */
module Selection {
  import opened Sorting
  import opened Wrappers

  datatype Row = Row(id: string, upstreamId: string, invokable: bool)

  /** What a row is ranked by before its id: score and context downwards, penalty and burn upwards. */
  datatype Rank = Rank(score: real, penalty: real, context: int, burn: real)

  /** Let everything through; keep the eligible; or keep the eligible unless that leaves nothing. */
  datatype Gate = Open | Strict(eligible: Row -> bool) | Soft(eligible: Row -> bool)

  /** The policy at one moment: empty stale and cooldown reasons are none. */
  datatype Policy = Policy(
    stale: Row -> string, cooldown: Row -> Option<string>, quarantined: Row -> bool,
    rank: Row -> Rank, gate: Gate, gateReason: string)

  datatype Profile = Profile(matches: Row -> bool, manual: bool, listed: seq<string>, autoTail: bool)

  /** A profile, a virtual model without one, or the name of a model. */
  datatype Request = ForProfile(profile: Profile) | ForVirtual | ForModel(name: string)

  type Reasons = map<string, string>

  datatype Selected = Selected(candidates: seq<Row>, reasons: Reasons, fallback: bool)

  function Filter(keep: Row -> bool, rows: seq<Row>): seq<Row> {
    if rows == [] then [] else (if keep(rows[0]) then [rows[0]] else []) + Filter(keep, rows[1..])
  }

  // ---------------------------------------------------------------------------------------------
  // sort_available_for_virtual_model
  // ---------------------------------------------------------------------------------------------

  predicate RankLeq(a: Rank, b: Rank, level: bool) {
    if a.score != b.score then a.score > b.score
    else if a.penalty != b.penalty then a.penalty < b.penalty
    else if a.context != b.context then a.context > b.context
    else if a.burn != b.burn then a.burn < b.burn
    else level
  }

  predicate RowLeq(p: Policy, a: Row, b: Row) {
    RankLeq(p.rank(a), p.rank(b), StringLeq(a.id, b.id))
  }

  function Order(p: Policy): (Row, Row) -> bool {
    (a, b) => RowLeq(p, a, b)
  }

  function Sorted(p: Policy, rows: seq<Row>): seq<Row> {
    Sort(Order(p), rows)
  }

  lemma {:induction false} RowsRank(p: Policy)
    ensures Ranks(Order(p))
  {
    StringOrder();
    forall a, b ensures Order(p)(a, b) || Order(p)(b, a) {
      assert StringLeq(a.id, b.id) || StringLeq(b.id, a.id);
    }
    forall a, b, c | Order(p)(a, b) && Order(p)(b, c) ensures Order(p)(a, c) {
      RowLeqIsTransitive(p, a, b, c);
    }
  }

  lemma {:induction false} RowLeqIsTransitive(p: Policy, a: Row, b: Row, c: Row)
    requires TotalOrder(StringLeq) && RowLeq(p, a, b) && RowLeq(p, b, c)
    ensures RowLeq(p, a, c)
  {
    if StringLeq(a.id, b.id) && StringLeq(b.id, c.id) {
      assert StringLeq(a.id, c.id);
    }
  }

  // ---------------------------------------------------------------------------------------------
  // manual_order_candidates
  // ---------------------------------------------------------------------------------------------

  /** `by_id.get`: the last row with the id. */
  function ById(rows: seq<Row>, id: string): Option<Row>
    decreases |rows|
  {
    if rows == [] then None
    else if rows[|rows| - 1].id == id then Some(rows[|rows| - 1]) else ById(rows[..|rows| - 1], id)
  }

  predicate HasId(rows: seq<Row>, id: string) {
    exists i :: 0 <= i < |rows| && rows[i].id == id
  }

  /** The listed rows that are there, each at its first mention. */
  function Picked(listed: seq<string>, eligible: seq<Row>): seq<Row>
    decreases |listed|
  {
    if listed == [] then []
    else
      var before, last := Picked(listed[..|listed| - 1], eligible), ById(eligible, listed[|listed| - 1]);
      if last.Some? && !HasId(before, last.value.id) then before + [last.value] else before
  }

  function NotIn(picked: seq<Row>): Row -> bool {
    (r: Row) => !HasId(picked, r.id)
  }

  function ManualOrder(p: Policy, profile: Profile, eligible: seq<Row>): seq<Row> {
    var picked := Picked(profile.listed, eligible);
    if profile.autoTail then picked + Sorted(p, Filter(NotIn(picked), eligible)) else picked
  }

  method ManualOrderCandidates(p: Policy, profile: Profile, eligible: seq<Row>) returns (selected: seq<Row>)
    ensures selected == ManualOrder(p, profile, eligible)
  {
    selected := [];
    var seen: set<string> := {};
    var i := 0;
    while i < |profile.listed|
      invariant 0 <= i <= |profile.listed|
      invariant selected == Picked(profile.listed[..i], eligible)
      invariant forall id :: id in seen <==> HasId(selected, id)
    {
      assert profile.listed[..i + 1][..i] == profile.listed[..i];
      var model := ById(eligible, profile.listed[i]);
      if model.Some? && model.value.id !in seen {
        OneMoreId(selected, model.value);
        selected := selected + [model.value];
        seen := seen + {model.value.id};
      }
      i := i + 1;
    }
    assert profile.listed[..i] == profile.listed;
    if profile.autoTail {
      ghost var picked := selected;
      var unseen := (r: Row) => r.id !in seen;
      SameFilter(unseen, NotIn(picked), eligible);
      selected := selected + Sorted(p, Filter(unseen, eligible));
    }
  }

  lemma {:induction false} OneMoreId(rows: seq<Row>, row: Row)
    ensures forall id :: HasId(rows + [row], id) <==> HasId(rows, id) || id == row.id
  {
    var more := rows + [row];
    forall id | HasId(rows, id) || id == row.id ensures HasId(more, id) {
      if HasId(rows, id) {
        var i :| 0 <= i < |rows| && rows[i].id == id;
        assert more[i].id == id;
      } else {
        assert more[|rows|].id == id;
      }
    }
  }

  lemma {:induction false} SameFilter(f: Row -> bool, g: Row -> bool, rows: seq<Row>)
    requires forall r :: r in rows ==> f(r) == g(r)
    ensures Filter(f, rows) == Filter(g, rows)
    decreases |rows|
  {
    if rows != [] {
      assert rows[0] in rows;
      SameFilter(f, g, rows[1..]);
    }
  }

  // ---------------------------------------------------------------------------------------------
  // select_models_result_from_typed_rows
  // ---------------------------------------------------------------------------------------------

  function Scope(reason: string): string {
    if "provider:" <= reason then "provider_cooldown"
    else if "quota:" <= reason then "quota_cooldown"
    else "cooldown"
  }

  /** Why a row may not answer now, whatever is asked for. */
  function Blocked(p: Policy, row: Row): Option<string> {
    if p.stale(row) != "" then Some(p.stale(row))
    else if p.cooldown(row).Some? then Some(Scope(p.cooldown(row).value))
    else if p.quarantined(row) then Some("quarantined")
    else None
  }

  predicate IsAvailable(p: Policy, row: Row) {
    row.invokable && Blocked(p, row).None?
  }

  function Available(p: Policy, rows: seq<Row>): seq<Row> {
    Filter(CanAnswer(p), rows)
  }

  function CanAnswer(p: Policy): Row -> bool {
    (r: Row) => IsAvailable(p, r)
  }

  function Note(reasons: Reasons, id: string, reason: string): Reasons {
    if id == "" then reasons else reasons[id := reason]
  }

  function NotInvokable(rows: seq<Row>): Reasons
    decreases |rows|
  {
    if rows == [] then map[]
    else
      var before, last := NotInvokable(rows[..|rows| - 1]), rows[|rows| - 1];
      if last.invokable then before else Note(before, last.id, "not_invokable")
  }

  /** The reasons after the first `rows` have been looked at. */
  function Noted(p: Policy, start: Reasons, rows: seq<Row>): Reasons
    decreases |rows|
  {
    if rows == [] then start
    else
      var before, last := Noted(p, start, rows[..|rows| - 1]), rows[|rows| - 1];
      if last.invokable && Blocked(p, last).Some? then Note(before, last.id, Blocked(p, last).value) else before
  }

  function Ids(rows: seq<Row>): set<string> {
    set i | 0 <= i < |rows| :: rows[i].id
  }

  /** A reason for every id that was there before and is not there after. */
  function NoteMissing(reasons: Reasons, before: seq<Row>, after: seq<Row>, reason: string): Reasons {
    var gone := Ids(before) - Ids(after) - {""};
    reasons + map id | id in gone :: reason
  }

  function IsNamed(name: string): Row -> bool {
    (r: Row) => r.id == name || r.upstreamId == name
  }

  function Candidates(p: Policy, request: Request, available: seq<Row>): seq<Row> {
    match request
    case ForProfile(profile) =>
      var eligible := Filter(profile.matches, available);
      if profile.manual then ManualOrder(p, profile, eligible) else Sorted(p, eligible)
    case ForVirtual => Sorted(p, available)
    case ForModel(name) =>
      var named := Filter(IsNamed(name), available);
      if named == [] then [] else [named[0]]
  }

  function ProfileReasons(request: Request, available: seq<Row>, reasons: Reasons): Reasons {
    if request.ForProfile?
    then NoteMissing(reasons, available, Filter(request.profile.matches, available), "profile_requirements")
    else reasons
  }

  /** `competence_gate_result`, and the exact gates of the coding profile. */
  function PassGate(gate: Gate, candidates: seq<Row>): (seq<Row>, bool) {
    match gate
    case Open => (candidates, false)
    case Strict(eligible) => (Filter(eligible, candidates), false)
    case Soft(eligible) =>
      if Filter(eligible, candidates) != [] then (Filter(eligible, candidates), false)
      else (candidates, candidates != [])
  }

  function Select(p: Policy, request: Request, rows: seq<Row>): Selected {
    var available := Available(p, rows);
    var reasons := ProfileReasons(request, available, Noted(p, NotInvokable(rows), rows));
    var candidates := Candidates(p, request, available);
    var (passed, fallback) := PassGate(p.gate, candidates);
    Selected(passed, NoteMissing(reasons, candidates, passed, p.gateReason), fallback)
  }

  method SelectModels(p: Policy, request: Request, rows: seq<Row>) returns (r: Selected)
    ensures r == Select(p, request, rows)
  {
    var available, reasons := Sift(p, rows);
    reasons := ProfileReasons(request, available, reasons);
    var candidates := [];
    if request.ForProfile? && request.profile.manual {
      candidates := ManualOrderCandidates(p, request.profile, Filter(request.profile.matches, available));
    } else {
      candidates := Candidates(p, request, available);
    }
    var (passed, fallback) := PassGate(p.gate, candidates);
    return Selected(passed, NoteMissing(reasons, candidates, passed, p.gateReason), fallback);
  }

  method Sift(p: Policy, rows: seq<Row>) returns (available: seq<Row>, reasons: Reasons)
    ensures available == Available(p, rows)
    ensures reasons == Noted(p, NotInvokable(rows), rows)
  {
    reasons := NotInvokable(rows);
    available := [];
    var i := 0;
    while i < |rows|
      invariant 0 <= i <= |rows|
      invariant available == Available(p, rows[..i])
      invariant reasons == Noted(p, NotInvokable(rows), rows[..i])
    {
      assert rows[..i + 1][..i] == rows[..i];
      assert rows[..i + 1] == rows[..i] + [rows[i]];
      FilterSnoc(CanAnswer(p), rows[..i], rows[i]);
      if rows[i].invokable {
        var blocked := Blocked(p, rows[i]);
        if blocked.Some? {
          reasons := Note(reasons, rows[i].id, blocked.value);
        } else {
          available := available + [rows[i]];
        }
      }
      i := i + 1;
    }
    assert rows[..i] == rows;
  }

  lemma {:induction false} Associative(a: seq<Row>, b: seq<Row>, c: seq<Row>)
    ensures (a + b) + c == a + (b + c)
  {
  }

  lemma {:induction false} FilterSnoc(keep: Row -> bool, rows: seq<Row>, row: Row)
    ensures Filter(keep, rows + [row]) == Filter(keep, rows) + if keep(row) then [row] else []
    decreases |rows|
  {
    if rows == [] {
      assert [] + [row] == [row];
      assert [row][1..] == [];
    } else {
      assert (rows + [row])[0] == rows[0] && (rows + [row])[1..] == rows[1..] + [row];
      FilterSnoc(keep, rows[1..], row);
      Associative(if keep(rows[0]) then [rows[0]] else [], Filter(keep, rows[1..]), if keep(row) then [row] else []);
    }
  }

  // ---------------------------------------------------------------------------------------------
  // Every row is a candidate or has a reason
  // ---------------------------------------------------------------------------------------------

  /** Ids that are there and tell the rows apart. */
  ghost predicate DistinctIds(rows: seq<Row>) {
    && (forall i :: 0 <= i < |rows| ==> rows[i].id != "")
    && forall i, j :: 0 <= i < j < |rows| ==> rows[i].id != rows[j].id
  }

  lemma {:induction false} SameId(rows: seq<Row>, a: Row, b: Row)
    requires DistinctIds(rows) && a in rows && b in rows && a.id == b.id
    ensures a == b
  {
    var i :| 0 <= i < |rows| && rows[i] == a;
    var j :| 0 <= j < |rows| && rows[j] == b;
  }

  lemma {:induction false} FilterMembers(keep: Row -> bool, rows: seq<Row>)
    ensures forall r :: r in Filter(keep, rows) <==> r in rows && keep(r)
    decreases |rows|
  {
    if rows != [] {
      FilterMembers(keep, rows[1..]);
      assert forall r :: r in rows <==> r == rows[0] || r in rows[1..];
    }
  }

  lemma {:induction false} FilterKeepsDistinct(keep: Row -> bool, rows: seq<Row>)
    requires DistinctIds(rows)
    ensures DistinctIds(Filter(keep, rows))
    decreases |rows|
  {
    if rows != [] {
      FilterKeepsDistinct(keep, rows[1..]);
      FilterMembers(keep, rows[1..]);
      var rest := Filter(keep, rows[1..]);
      forall i | 0 <= i < |rest| ensures rest[i].id != rows[0].id {
        assert rest[i] in rest;
        var j :| 0 <= j < |rows[1..]| && rows[1..][j] == rest[i];
      }
    }
  }

  lemma {:induction false} IdsMembers(rows: seq<Row>, r: Row)
    requires r in rows
    ensures r.id in Ids(rows)
  {
    var i :| 0 <= i < |rows| && rows[i] == r;
  }

  /** Sorting keeps the rows and their distinctness. */
  lemma {:induction false} SortedKeeps(p: Policy, rows: seq<Row>)
    requires DistinctIds(rows)
    ensures DistinctIds(Sorted(p, rows))
    ensures forall r :: r in Sorted(p, rows) <==> r in rows
    ensures Ascending(Order(p), Sorted(p, rows))
  {
    RowsRank(p);
    SortAscends(Order(p), rows);
    SortMembers(Order(p), rows);
    SortCounts(Order(p), rows);
    DistinctCounts(rows, Sorted(p, rows));
  }

  lemma {:induction false} DistinctCounts(rows: seq<Row>, sorted: seq<Row>)
    requires DistinctIds(rows) && multiset(sorted) == multiset(rows)
    requires forall r :: r in sorted <==> r in rows
    ensures DistinctIds(sorted)
  {
    forall i | 0 <= i < |sorted| ensures sorted[i].id != "" {
      assert sorted[i] in rows;
    }
    forall i, j | 0 <= i < j < |sorted| ensures sorted[i].id != sorted[j].id {
      assert sorted[i] in rows && sorted[j] in rows;
      if sorted[i].id == sorted[j].id {
        SameId(rows, sorted[i], sorted[j]);
        TwiceCounts(sorted, i, j);
        OnceCounts(rows, sorted[i]);
      }
    }
  }

  lemma {:induction false} TwiceCounts(rows: seq<Row>, i: int, j: int)
    requires 0 <= i < j < |rows| && rows[i] == rows[j]
    ensures multiset(rows)[rows[i]] >= 2
  {
    assert rows == rows[..j] + rows[j..];
    assert rows[..j][i] in multiset(rows[..j]);
    assert rows[j..][0] in multiset(rows[j..]);
  }

  lemma {:induction false} OnceCounts(rows: seq<Row>, r: Row)
    requires DistinctIds(rows)
    ensures multiset(rows)[r] <= 1
    decreases |rows|
  {
    if rows != [] {
      OnceCounts(rows[1..], r);
      HeadAndTail(rows);
      assert rows[0] !in rows[1..];
      assert rows[0] !in multiset(rows[1..]);
    }
  }

  /** In auto mode the order of the catalog makes no difference to the order of the candidates. */
  lemma {:induction false} OrderIsIntrinsic(p: Policy, a: seq<Row>, b: seq<Row>)
    requires DistinctIds(a) && multiset(a) == multiset(b)
    ensures Sorted(p, a) == Sorted(p, b)
  {
    RowsRank(p);
    StringOrder();
    forall i, j | 0 <= i < |a| && 0 <= j < |a| && Order(p)(a[i], a[j]) && Order(p)(a[j], a[i]) ensures a[i] == a[j] {
      assert StringLeq(a[i].id, a[j].id) && StringLeq(a[j].id, a[i].id);
      SameId(a, a[i], a[j]);
    }
    SortIgnoresOrder(Order(p), a, b);
  }

  // ---- manual order ----

  lemma {:induction false} ByIdFinds(rows: seq<Row>, id: string)
    ensures match ById(rows, id)
            case Some(r) => r in rows && r.id == id
            case None => forall r :: r in rows ==> r.id != id
    decreases |rows|
  {
    if rows != [] {
      ByIdFinds(rows[..|rows| - 1], id);
      assert forall r :: r in rows <==> r in rows[..|rows| - 1] || r == rows[|rows| - 1];
    }
  }

  /** The listed rows: in configured order, each once, and all of those that are eligible. */
  lemma {:induction false} PickedExactly(listed: seq<string>, eligible: seq<Row>)
    requires DistinctIds(eligible)
    ensures DistinctIds(Picked(listed, eligible))
    ensures forall r :: r in Picked(listed, eligible) <==> r in eligible && r.id in listed
    decreases |listed|
  {
    if listed != [] {
      var init, id := listed[..|listed| - 1], listed[|listed| - 1];
      PickedExactly(init, eligible);
      ByIdFinds(eligible, id);
      var before, last := Picked(init, eligible), ById(eligible, id);
      assert listed == init + [id];
      if last.Some? {
        forall r | r in eligible && r.id == id ensures r == last.value {
          SameId(eligible, r, last.value);
        }
      }
    }
  }

  /** One row is picked before another when it is mentioned before it. */
  lemma {:induction false} PickedInListedOrder(listed: seq<string>, eligible: seq<Row>, i: nat, j: nat, m: nat)
    requires DistinctIds(eligible)
    requires i < j < |Picked(listed, eligible)| && m < |listed| && listed[m] == Picked(listed, eligible)[j].id
    ensures exists k :: 0 <= k < m && listed[k] == Picked(listed, eligible)[i].id
    decreases |listed|
  {
    var init := listed[..|listed| - 1];
    var before, picked := Picked(init, eligible), Picked(listed, eligible);
    PickedExactly(init, eligible);
    PickedExactly(listed, eligible);
    ByIdFinds(eligible, listed[|listed| - 1]);
    if j < |before| {
      var r := before[j];
      assert r in before;
      if m < |init| {
        PickedInListedOrder(init, eligible, i, j, m);
      } else {
        assert before[i] in before;
        var k :| 0 <= k < |init| && init[k] == before[i].id;
        assert listed[k] == picked[i].id;
      }
    } else {
      HasIdMembers(before, picked[j].id);
      assert picked[j] !in before && picked[j] in picked;
      assert picked[j].id !in init;
      assert forall q :: 0 <= q < |init| ==> init[q] != picked[j].id;
      assert before[i] in before;
      var k :| 0 <= k < |init| && init[k] == before[i].id;
      assert listed[k] == picked[i].id;
    }
  }

  lemma {:induction false} HasIdMembers(rows: seq<Row>, id: string)
    ensures HasId(rows, id) <==> exists r :: r in rows && r.id == id
  {
    if HasId(rows, id) {
      var i :| 0 <= i < |rows| && rows[i].id == id;
      assert rows[i] in rows;
    }
  }

  lemma {:induction false} AppendKeepsDistinct(a: seq<Row>, b: seq<Row>)
    requires DistinctIds(a) && DistinctIds(b)
    requires forall r :: r in b ==> !HasId(a, r.id)
    ensures DistinctIds(a + b)
  {
    var all := a + b;
    forall i, j | 0 <= i < j < |all| ensures all[i].id != all[j].id {
      if i < |a| <= j {
        assert all[j] == b[j - |a|] && all[j] in b;
        assert all[i] == a[i];
      }
    }
  }

  /** The rows that were not picked, in rank order. */
  function Tail(p: Policy, picked: seq<Row>, eligible: seq<Row>): seq<Row> {
    Sorted(p, Filter(NotIn(picked), eligible))
  }

  lemma {:induction false} TailIsRest(p: Policy, picked: seq<Row>, eligible: seq<Row>)
    requires DistinctIds(eligible)
    ensures Ascending(Order(p), Tail(p, picked, eligible))
    ensures DistinctIds(Tail(p, picked, eligible))
    ensures forall r :: r in Tail(p, picked, eligible) <==> r in eligible && !HasId(picked, r.id)
  {
    FilterMembers(NotIn(picked), eligible);
    FilterKeepsDistinct(NotIn(picked), eligible);
    SortedKeeps(p, Filter(NotIn(picked), eligible));
  }

  /** With a tail: the listed rows first, then the others in rank order. */
  lemma {:induction false} ListedComeFirst(p: Policy, profile: Profile, eligible: seq<Row>)
    requires DistinctIds(eligible) && profile.autoTail
    ensures var picked, rest := Picked(profile.listed, eligible), Tail(p, Picked(profile.listed, eligible), eligible);
            && ManualOrder(p, profile, eligible) == picked + rest
            && (forall r :: r in picked ==> r.id in profile.listed)
            && (forall r :: r in rest ==> r.id !in profile.listed)
            && Ascending(Order(p), rest)
  {
    var picked := Picked(profile.listed, eligible);
    PickedExactly(profile.listed, eligible);
    TailIsRest(p, picked, eligible);
    forall r | r in Tail(p, picked, eligible) ensures r.id !in profile.listed {
      HasIdMembers(picked, r.id);
    }
  }

  /** Exactly the eligible rows that are listed, and the others when there is a tail; each once. */
  lemma {:induction false} ManualOrderExactly(p: Policy, profile: Profile, eligible: seq<Row>)
    requires DistinctIds(eligible)
    ensures DistinctIds(ManualOrder(p, profile, eligible))
    ensures forall r :: r in ManualOrder(p, profile, eligible) <==>
              r in eligible && (r.id in profile.listed || profile.autoTail)
  {
    var picked := Picked(profile.listed, eligible);
    PickedExactly(profile.listed, eligible);
    if profile.autoTail {
      var tail := Tail(p, picked, eligible);
      TailIsRest(p, picked, eligible);
      AppendKeepsDistinct(picked, tail);
      forall r | r in eligible ensures r in picked + tail {
        HasIdMembers(picked, r.id);
        if HasId(picked, r.id) {
          var q :| q in picked && q.id == r.id;
          SameId(eligible, q, r);
        }
      }
    }
  }

  // ---- the reasons ----

  lemma {:induction false} NotInvokableExactly(rows: seq<Row>)
    requires DistinctIds(rows)
    ensures forall r :: r in rows ==> (r.id in NotInvokable(rows) <==> !r.invokable)
    ensures forall id :: id in NotInvokable(rows) ==> id in Ids(rows)
    decreases |rows|
  {
    if rows != [] {
      var init, last := rows[..|rows| - 1], rows[|rows| - 1];
      NotInvokableExactly(init);
      assert rows == init + [last];
      LastIsNew(rows);
      assert Ids(rows) == Ids(init) + {last.id};
      forall r | r in init ensures r.id != last.id {
        IdsMembers(init, r);
      }
    }
  }

  lemma {:induction false} LastIsNew(rows: seq<Row>)
    requires DistinctIds(rows) && rows != []
    ensures rows[|rows| - 1].id !in Ids(rows[..|rows| - 1])
  {
  }

  lemma {:induction false} NotedExactly(p: Policy, start: Reasons, rows: seq<Row>)
    requires DistinctIds(rows)
    ensures forall r :: r in rows ==>
              (r.id in Noted(p, start, rows) <==> r.id in start || (r.invokable && Blocked(p, r).Some?))
    ensures forall id :: id in Noted(p, start, rows) ==> id in start || id in Ids(rows)
    ensures forall id :: id in start ==> id in Noted(p, start, rows)
    decreases |rows|
  {
    if rows != [] {
      var init, last := rows[..|rows| - 1], rows[|rows| - 1];
      NotedExactly(p, start, init);
      assert rows == init + [last];
      LastIsNew(rows);
      assert Ids(rows) == Ids(init) + {last.id};
      forall r | r in init ensures r.id != last.id {
        IdsMembers(init, r);
      }
    }
  }

  /** After sifting, the rows with a reason are exactly those that are not available. */
  lemma {:induction false} SiftedExactly(p: Policy, rows: seq<Row>)
    requires DistinctIds(rows)
    ensures forall r :: r in rows ==> (r.id in Noted(p, NotInvokable(rows), rows) <==> !IsAvailable(p, r))
  {
    NotInvokableExactly(rows);
    NotedExactly(p, NotInvokable(rows), rows);
  }

  lemma {:induction false} MissingExactly(rows: seq<Row>, reasons: Reasons, before: seq<Row>, after: seq<Row>,
                                          reason: string, r: Row)
    requires DistinctIds(rows) && r in rows
    requires (forall x :: x in before ==> x in rows) && (forall x :: x in after ==> x in rows)
    ensures r.id in NoteMissing(reasons, before, after, reason) <==>
            r.id in reasons || (r in before && r !in after)
  {
    assert r.id != "";
    InIds(rows, before, r);
    InIds(rows, after, r);
  }

  lemma {:induction false} InIds(rows: seq<Row>, part: seq<Row>, r: Row)
    requires DistinctIds(rows) && r in rows && forall x :: x in part ==> x in rows
    ensures r.id in Ids(part) <==> r in part
  {
    if r.id in Ids(part) {
      var i :| 0 <= i < |part| && part[i].id == r.id;
      assert part[i] in part;
      SameId(rows, part[i], r);
    }
    if r in part {
      IdsMembers(part, r);
    }
  }

  /** The gate only takes candidates away, and the soft gate never takes the last. */
  lemma {:induction false} GateOnlyFilters(gate: Gate, candidates: seq<Row>)
    requires DistinctIds(candidates)
    ensures DistinctIds(PassGate(gate, candidates).0)
    ensures forall r :: r in PassGate(gate, candidates).0 ==> r in candidates
    ensures !gate.Strict? && candidates != [] ==> PassGate(gate, candidates).0 != []
    ensures PassGate(gate, candidates).1 <==>
            gate.Soft? && candidates != [] && forall r :: r in candidates ==> !gate.eligible(r)
  {
    if !gate.Open? {
      FilterMembers(gate.eligible, candidates);
      FilterKeepsDistinct(gate.eligible, candidates);
      var kept := Filter(gate.eligible, candidates);
      if kept != [] {
        assert kept[0] in kept;
      }
    }
  }

  /** An eligible row that a manual list without a tail leaves out. */
  predicate LeftOut(p: Policy, profile: Profile, r: Row) {
    IsAvailable(p, r) && profile.matches(r) && profile.manual && !profile.autoTail && r.id !in profile.listed
  }

  lemma {:induction false} CandidatesExactly(p: Policy, profile: Profile, rows: seq<Row>)
    requires DistinctIds(rows)
    ensures var c := Candidates(p, ForProfile(profile), Available(p, rows));
            && DistinctIds(c)
            && forall r :: r in c <==> r in rows && IsAvailable(p, r) && profile.matches(r) && !LeftOut(p, profile, r)
  {
    var available := Available(p, rows);
    FilterMembers(CanAnswer(p), rows);
    FilterKeepsDistinct(CanAnswer(p), rows);
    FilterMembers(profile.matches, available);
    FilterKeepsDistinct(profile.matches, available);
    var eligible := Filter(profile.matches, available);
    if profile.manual {
      ManualOrderExactly(p, profile, eligible);
    } else {
      SortedKeeps(p, eligible);
    }
  }

  /**
    Each row of the catalog is a candidate or has a reason, and not both, unless a manual list without a
    tail leaves it out, when it is neither.
   */
  lemma {:induction false} SelectionPartitions(p: Policy, profile: Profile, rows: seq<Row>, r: Row)
    requires DistinctIds(rows) && r in rows
    ensures var s := Select(p, ForProfile(profile), rows);
            if LeftOut(p, profile, r) then r !in s.candidates && r.id !in s.reasons
            else r in s.candidates <==> r.id !in s.reasons
  {
    var request := ForProfile(profile);
    var available := Available(p, rows);
    var eligible := Filter(profile.matches, available);
    var candidates := Candidates(p, request, available);
    FilterMembers(CanAnswer(p), rows);
    FilterMembers(profile.matches, available);
    CandidatesExactly(p, profile, rows);
    GateOnlyFilters(p.gate, candidates);
    SiftedExactly(p, rows);
    var noted := Noted(p, NotInvokable(rows), rows);
    MissingExactly(rows, noted, available, eligible, "profile_requirements", r);
    MissingExactly(rows, ProfileReasons(request, available, noted), candidates, PassGate(p.gate, candidates).0,
        p.gateReason, r);
  }

  /** Candidates are distinct rows of the catalog that may answer and match the profile. */
  lemma {:induction false} CandidatesQualify(p: Policy, profile: Profile, rows: seq<Row>)
    requires DistinctIds(rows)
    ensures var s := Select(p, ForProfile(profile), rows);
            && DistinctIds(s.candidates)
            && forall r :: r in s.candidates ==> r in rows && IsAvailable(p, r) && profile.matches(r)
  {
    CandidatesExactly(p, profile, rows);
    GateOnlyFilters(p.gate, Candidates(p, ForProfile(profile), Available(p, rows)));
  }

  // ---- the order of the candidates ----

  /** A filter leaves the rows in their order. */
  lemma {:induction false} FilterKeepsOrder(keep: Row -> bool, rows: seq<Row>, i: nat, j: nat)
    returns (k: nat, l: nat)
    requires i < j < |Filter(keep, rows)|
    ensures k < l < |rows| && rows[k] == Filter(keep, rows)[i] && rows[l] == Filter(keep, rows)[j]
    decreases |rows|
  {
    var rest := Filter(keep, rows[1..]);
    if !keep(rows[0]) {
      k, l := FilterKeepsOrder(keep, rows[1..], i, j);
      k, l := k + 1, l + 1;
    } else if i > 0 {
      k, l := FilterKeepsOrder(keep, rows[1..], i - 1, j - 1);
      k, l := k + 1, l + 1;
    } else {
      assert rest[j - 1] in rest;
      FilterMembers(keep, rows[1..]);
      var m :| 0 <= m < |rows[1..]| && rows[1..][m] == rest[j - 1];
      k, l := 0, m + 1;
    }
  }

  lemma {:induction false} GateKeepsOrder(gate: Gate, candidates: seq<Row>, i: nat, j: nat) returns (k: nat, l: nat)
    requires i < j < |PassGate(gate, candidates).0|
    ensures k < l < |candidates|
    ensures candidates[k] == PassGate(gate, candidates).0[i] && candidates[l] == PassGate(gate, candidates).0[j]
  {
    if PassGate(gate, candidates).0 == candidates {
      k, l := i, j;
    } else {
      k, l := FilterKeepsOrder(gate.eligible, candidates, i, j);
    }
  }

  /** Where an id is mentioned first. */
  function FirstMention(listed: seq<string>, id: string): (k: nat)
    ensures k <= |listed| && (k < |listed| ==> listed[k] == id) && (id in listed ==> k < |listed|)
    ensures forall m :: 0 <= m < |listed| && listed[m] == id ==> k <= m
    decreases |listed|
  {
    if listed == [] || listed[0] == id then 0 else 1 + FirstMention(listed[1..], id)
  }

  /** One candidate may stand before another. */
  ghost predicate Before(p: Policy, profile: Profile, a: Row, b: Row) {
    if !profile.manual then IsAhead(p, a, b)
    else if b.id in profile.listed then
      a.id in profile.listed && FirstMention(profile.listed, a.id) < FirstMention(profile.listed, b.id)
    else a.id in profile.listed || IsAhead(p, a, b)
  }

  /** The greater score, then the smaller penalty, the longer context, the smaller burn and the earlier id. */
  ghost predicate IsAhead(p: Policy, a: Row, b: Row) {
    var x, y := p.rank(a), p.rank(b);
    || x.score > y.score
    || (x.score == y.score && x.penalty < y.penalty)
    || (x.score == y.score && x.penalty == y.penalty && x.context > y.context)
    || (x.score == y.score && x.penalty == y.penalty && x.context == y.context && x.burn < y.burn)
    || (x == y && (a.id <= b.id || exists k :: DifferAt(a.id, b.id, k) && a.id[k] < b.id[k]))
  }

  lemma {:induction false} OrderExactly(p: Policy, a: Row, b: Row)
    ensures Order(p)(a, b) <==> IsAhead(p, a, b)
  {
    StringLeqExactly(a.id, b.id);
  }

  lemma {:induction false} PickedBefore(p: Policy, profile: Profile, eligible: seq<Row>, i: nat, j: nat)
    requires DistinctIds(eligible) && profile.manual && i < j < |Picked(profile.listed, eligible)|
    ensures var picked := Picked(profile.listed, eligible); Before(p, profile, picked[i], picked[j])
  {
    var picked := Picked(profile.listed, eligible);
    PickedExactly(profile.listed, eligible);
    assert picked[i] in picked && picked[j] in picked;
    PickedInListedOrder(profile.listed, eligible, i, j, FirstMention(profile.listed, picked[j].id));
  }

  /** The rows of the tail come after the listed ones, and among themselves by rank. */
  lemma {:induction false} TailBefore(p: Policy, profile: Profile, picked: seq<Row>, rest: seq<Row>, i: nat, j: nat)
    requires profile.manual && Ascending(Order(p), rest)
    requires forall r :: r in picked ==> r.id in profile.listed
    requires forall r :: r in rest ==> r.id !in profile.listed
    requires |picked| <= j && i < j < |picked| + |rest|
    ensures Before(p, profile, (picked + rest)[i], (picked + rest)[j])
  {
    assert (picked + rest)[j] == rest[j - |picked|] && rest[j - |picked|] in rest;
    if i < |picked| {
      assert (picked + rest)[i] == picked[i] && picked[i] in picked;
    } else {
      assert (picked + rest)[i] == rest[i - |picked|];
      OrderExactly(p, rest[i - |picked|], rest[j - |picked|]);
    }
  }

  lemma {:induction false} ManualBefore(p: Policy, profile: Profile, eligible: seq<Row>, i: nat, j: nat)
    requires DistinctIds(eligible) && profile.manual && i < j < |ManualOrder(p, profile, eligible)|
    ensures var order := ManualOrder(p, profile, eligible); Before(p, profile, order[i], order[j])
  {
    var picked := Picked(profile.listed, eligible);
    if j < |picked| {
      PickedBefore(p, profile, eligible, i, j);
    } else {
      ListedComeFirst(p, profile, eligible);
      TailBefore(p, profile, picked, Tail(p, picked, eligible), i, j);
    }
  }

  /**
    What is selected, after the gate, is in order: by rank, or for a manual profile the listed rows by
    their first mention and then the others by rank.
   */
  lemma {:induction false} SelectedInOrder(p: Policy, profile: Profile, rows: seq<Row>, i: nat, j: nat)
    requires DistinctIds(rows) && i < j < |Select(p, ForProfile(profile), rows).candidates|
    ensures var c := Select(p, ForProfile(profile), rows).candidates; Before(p, profile, c[i], c[j])
  {
    var available := Available(p, rows);
    var eligible := Filter(profile.matches, available);
    FilterKeepsDistinct(CanAnswer(p), rows);
    FilterKeepsDistinct(profile.matches, available);
    var k, l := GateKeepsOrder(p.gate, Candidates(p, ForProfile(profile), available), i, j);
    if profile.manual {
      ManualBefore(p, profile, eligible, k, l);
    } else {
      SortedKeeps(p, eligible);
      OrderExactly(p, Sorted(p, eligible)[k], Sorted(p, eligible)[l]);
    }
  }

  // ---- the order of the catalog ----

  /** The same catalog in another order. */
  ghost predicate SameRows(a: seq<Row>, b: seq<Row>) {
    DistinctIds(a) && DistinctIds(b) && multiset(a) == multiset(b)
  }

  lemma {:induction false} SameRowsMembers(a: seq<Row>, b: seq<Row>)
    requires multiset(a) == multiset(b)
    ensures forall r :: r in a <==> r in b
  {
    forall r ensures r in a <==> r in b {
      assert r in multiset(a) <==> r in multiset(b);
    }
  }

  lemma {:induction false} FilterCounts(keep: Row -> bool, rows: seq<Row>, r: Row)
    ensures multiset(Filter(keep, rows))[r] == if keep(r) then multiset(rows)[r] else 0
    decreases |rows|
  {
    if rows != [] {
      FilterCounts(keep, rows[1..], r);
      HeadAndTail(rows);
      ConsCounts(rows[0], Filter(keep, rows[1..]));
    }
  }

  lemma {:induction false} FilterSameRows(keep: Row -> bool, a: seq<Row>, b: seq<Row>)
    requires SameRows(a, b)
    ensures SameRows(Filter(keep, a), Filter(keep, b))
  {
    FilterKeepsDistinct(keep, a);
    FilterKeepsDistinct(keep, b);
    forall r ensures multiset(Filter(keep, a))[r] == multiset(Filter(keep, b))[r] {
      FilterCounts(keep, a, r);
      FilterCounts(keep, b, r);
    }
  }

  lemma {:induction false} ByIdIgnoresOrder(a: seq<Row>, b: seq<Row>, id: string)
    requires SameRows(a, b)
    ensures ById(a, id) == ById(b, id)
  {
    ByIdFinds(a, id);
    ByIdFinds(b, id);
    SameRowsMembers(a, b);
    if ById(a, id).Some? && ById(b, id).Some? {
      SameId(a, ById(a, id).value, ById(b, id).value);
    }
  }

  lemma {:induction false} PickedIgnoresOrder(listed: seq<string>, a: seq<Row>, b: seq<Row>)
    requires SameRows(a, b)
    ensures Picked(listed, a) == Picked(listed, b)
    decreases |listed|
  {
    if listed != [] {
      PickedIgnoresOrder(listed[..|listed| - 1], a, b);
      ByIdIgnoresOrder(a, b, listed[|listed| - 1]);
    }
  }

  lemma {:induction false} CandidatesIgnoreOrder(p: Policy, request: Request, a: seq<Row>, b: seq<Row>)
    requires SameRows(a, b) && !request.ForModel?
    ensures Candidates(p, request, a) == Candidates(p, request, b)
  {
    if request.ForVirtual? {
      OrderIsIntrinsic(p, a, b);
    } else {
      var profile := request.profile;
      var x, y := Filter(profile.matches, a), Filter(profile.matches, b);
      FilterSameRows(profile.matches, a, b);
      if profile.manual {
        PickedIgnoresOrder(profile.listed, x, y);
        var picked := Picked(profile.listed, x);
        FilterSameRows(NotIn(picked), x, y);
        OrderIsIntrinsic(p, Filter(NotIn(picked), x), Filter(NotIn(picked), y));
      } else {
        OrderIsIntrinsic(p, x, y);
      }
    }
  }

  // The reasons that sifting notes, row by row.

  lemma {:induction false} NotInvokableValues(rows: seq<Row>)
    ensures forall id :: id in NotInvokable(rows) ==> NotInvokable(rows)[id] == "not_invokable"
    decreases |rows|
  {
    if rows != [] {
      NotInvokableValues(rows[..|rows| - 1]);
    }
  }

  function ReasonOf(p: Policy, row: Row): Option<string> {
    if !row.invokable then Some("not_invokable") else Blocked(p, row)
  }

  function NotedAt(reasons: Reasons, id: string): Option<string> {
    if id in reasons then Some(reasons[id]) else None
  }

  lemma {:induction false} NotedKeepsOthers(p: Policy, start: Reasons, rows: seq<Row>, id: string)
    requires forall r :: r in rows ==> r.id != id
    ensures NotedAt(Noted(p, start, rows), id) == NotedAt(start, id)
    decreases |rows|
  {
    if rows != [] {
      assert rows[|rows| - 1] in rows;
      NotedKeepsOthers(p, start, rows[..|rows| - 1], id);
    }
  }

  lemma {:induction false} NotedValue(p: Policy, start: Reasons, rows: seq<Row>, r: Row)
    requires DistinctIds(rows) && r in rows
    ensures NotedAt(Noted(p, start, rows), r.id) ==
            if r.invokable && Blocked(p, r).Some? then Blocked(p, r) else NotedAt(start, r.id)
    decreases |rows|
  {
    var init, last := rows[..|rows| - 1], rows[|rows| - 1];
    assert rows == init + [last];
    if r == last {
      forall x | x in init ensures x.id != r.id {
        var i :| 0 <= i < |init| && init[i] == x;
        assert rows[i] == x;
      }
      NotedKeepsOthers(p, start, init, r.id);
      assert last.id != "";
    } else {
      assert r in init;
      assert r.id != last.id by {
        if r.id == last.id {
          SameId(rows, r, last);
        }
      }
      NotedValue(p, start, init, r);
    }
  }

  lemma {:induction false} SiftedValue(p: Policy, rows: seq<Row>, id: string)
    requires DistinctIds(rows)
    ensures match ById(rows, id)
            case Some(r) => NotedAt(Noted(p, NotInvokable(rows), rows), id) == ReasonOf(p, r)
            case None => NotedAt(Noted(p, NotInvokable(rows), rows), id) == None
  {
    ByIdFinds(rows, id);
    NotInvokableExactly(rows);
    NotInvokableValues(rows);
    match ById(rows, id)
    case Some(r) => NotedValue(p, NotInvokable(rows), rows, r);
    case None =>
      NotedKeepsOthers(p, NotInvokable(rows), rows, id);
  }

  lemma {:induction false} SiftingIgnoresOrder(p: Policy, a: seq<Row>, b: seq<Row>)
    requires SameRows(a, b)
    ensures Noted(p, NotInvokable(a), a) == Noted(p, NotInvokable(b), b)
  {
    var x, y := Noted(p, NotInvokable(a), a), Noted(p, NotInvokable(b), b);
    forall id ensures NotedAt(x, id) == NotedAt(y, id) {
      SiftedValue(p, a, id);
      SiftedValue(p, b, id);
      ByIdIgnoresOrder(a, b, id);
    }
    SameReasons(x, y);
  }

  lemma {:induction false} SameReasons(x: Reasons, y: Reasons)
    requires forall id :: NotedAt(x, id) == NotedAt(y, id)
    ensures x == y
  {
    forall id ensures id in x <==> id in y {
      assert NotedAt(x, id) == NotedAt(y, id);
    }
    forall id | id in x ensures x[id] == y[id] {
      assert NotedAt(x, id) == NotedAt(y, id);
    }
  }

  lemma {:induction false} IdsIgnoreOrder(a: seq<Row>, b: seq<Row>)
    requires SameRows(a, b)
    ensures Ids(a) == Ids(b)
  {
    SameRowsMembers(a, b);
    forall id ensures id in Ids(a) <==> id in Ids(b) {
      IdIsThere(a, b, id);
      IdIsThere(b, a, id);
    }
  }

  lemma {:induction false} IdIsThere(a: seq<Row>, b: seq<Row>, id: string)
    requires forall r :: r in a ==> r in b
    ensures id in Ids(a) ==> id in Ids(b)
  {
    if id in Ids(a) {
      var i :| 0 <= i < |a| && a[i].id == id;
      assert a[i] in b;
      IdsMembers(b, a[i]);
    }
  }

  /**
    The order of the catalog makes no difference to a selection for a profile, ranked or manual, or for a
    virtual model: the same candidates in the same order, the same reasons, the same fallback.
   */
  lemma {:induction false} SelectionIgnoresOrder(p: Policy, request: Request, a: seq<Row>, b: seq<Row>)
    requires SameRows(a, b) && !request.ForModel?
    ensures Select(p, request, a) == Select(p, request, b)
  {
    var x, y := Available(p, a), Available(p, b);
    FilterSameRows(CanAnswer(p), a, b);
    CandidatesIgnoreOrder(p, request, x, y);
    SiftingIgnoresOrder(p, a, b);
    IdsIgnoreOrder(x, y);
    if request.ForProfile? {
      FilterSameRows(request.profile.matches, x, y);
      IdsIgnoreOrder(Filter(request.profile.matches, x), Filter(request.profile.matches, y));
    }
  }

  // ---- what is selected, and what is said of the others, from the fields of the rows ----

  /** Why a row may not answer, in the words of the reasons. */
  function Hindrance(p: Policy, r: Row): Option<string> {
    if !r.invokable then Some("not_invokable")
    else if p.stale(r) != "" then Some(p.stale(r))
    else if p.cooldown(r).Some? then
      var reason := p.cooldown(r).value;
      Some(if |reason| >= 9 && reason[..9] == "provider:" then "provider_cooldown"
           else if |reason| >= 6 && reason[..6] == "quota:" then "quota_cooldown"
           else "cooldown")
    else if p.quarantined(r) then Some("quarantined")
    else None
  }

  lemma {:induction false} HindranceExactly(p: Policy, r: Row)
    ensures ReasonOf(p, r) == Hindrance(p, r)
    ensures IsAvailable(p, r) <==> Hindrance(p, r).None?
  {
    if p.cooldown(r).Some? {
      StartsExactly("provider:", p.cooldown(r).value);
      StartsExactly("quota:", p.cooldown(r).value);
    }
  }

  lemma {:induction false} StartsExactly(start: string, s: string)
    ensures start <= s <==> |s| >= |start| && s[..|start|] == start
  {
    if start <= s {
      assert s[..|start|] == start;
    }
  }

  /** The row is a candidate before the gate. */
  ghost predicate Runs(p: Policy, profile: Profile, r: Row) {
    && Hindrance(p, r).None? && profile.matches(r)
    && (profile.manual && !profile.autoTail ==> r.id in profile.listed)
  }

  /** The gate keeps the row out: it is not eligible, and for a soft gate there is one that is. */
  ghost predicate KeptOut(p: Policy, profile: Profile, rows: seq<Row>, r: Row) {
    match p.gate
    case Open => false
    case Strict(eligible) => !eligible(r)
    case Soft(eligible) => !eligible(r) && exists other :: other in rows && Runs(p, profile, other) && eligible(other)
  }

  lemma {:induction false} PassedExactly(p: Policy, profile: Profile, rows: seq<Row>, r: Row)
    requires DistinctIds(rows) && r in rows
    ensures var before := Candidates(p, ForProfile(profile), Available(p, rows));
            && (r in before <==> Runs(p, profile, r))
            && (r in PassGate(p.gate, before).0 <==> Runs(p, profile, r) && !KeptOut(p, profile, rows, r))
  {
    var before := Candidates(p, ForProfile(profile), Available(p, rows));
    CandidatesExactly(p, profile, rows);
    forall x ensures x in before <==> x in rows && Runs(p, profile, x) {
      HindranceExactly(p, x);
    }
    if !p.gate.Open? {
      FilterMembers(p.gate.eligible, before);
      var kept := Filter(p.gate.eligible, before);
      if kept != [] {
        assert kept[0] in kept;
      }
    }
  }

  /** Which rows are selected, and the reason of every other row. */
  lemma {:induction false} SelectionExactly(p: Policy, profile: Profile, rows: seq<Row>, r: Row)
    requires DistinctIds(rows) && r in rows
    ensures var s := Select(p, ForProfile(profile), rows);
            && (r in s.candidates <==> Runs(p, profile, r) && !KeptOut(p, profile, rows, r))
            && NotedAt(s.reasons, r.id) ==
               if Hindrance(p, r).Some? then Hindrance(p, r)
               else if !profile.matches(r) then Some("profile_requirements")
               else if Runs(p, profile, r) && KeptOut(p, profile, rows, r) then Some(p.gateReason)
               else None
  {
    var request := ForProfile(profile);
    var available := Available(p, rows);
    var eligible := Filter(profile.matches, available);
    var candidates := Candidates(p, request, available);
    var passed := PassGate(p.gate, candidates).0;
    FilterMembers(CanAnswer(p), rows);
    FilterMembers(profile.matches, available);
    CandidatesExactly(p, profile, rows);
    GateOnlyFilters(p.gate, candidates);
    HindranceExactly(p, r);
    PassedExactly(p, profile, rows, r);
    ByIdFinds(rows, r.id);
    SameId(rows, ById(rows, r.id).value, r);
    SiftedValue(p, rows, r.id);
    var noted := Noted(p, NotInvokable(rows), rows);
    MissingValue(rows, noted, available, eligible, "profile_requirements", r);
    MissingValue(rows, ProfileReasons(request, available, noted), candidates, passed, p.gateReason, r);
  }

  lemma {:induction false} MissingValue(rows: seq<Row>, reasons: Reasons, before: seq<Row>, after: seq<Row>,
                                        reason: string, r: Row)
    requires DistinctIds(rows) && r in rows
    requires (forall x :: x in before ==> x in rows) && (forall x :: x in after ==> x in rows)
    ensures NotedAt(NoteMissing(reasons, before, after, reason), r.id) ==
            if r in before && r !in after then Some(reason) else NotedAt(reasons, r.id)
  {
    assert r.id != "";
    InIds(rows, before, r);
    InIds(rows, after, r);
  }

  /** No reason is noted for a row without an id, whatever the catalog and the request. */
  lemma {:induction false} NoReasonWithoutId(p: Policy, request: Request, rows: seq<Row>)
    ensures "" !in Select(p, request, rows).reasons
  {
    NotInvokableWithoutId(rows);
    NotedWithoutId(p, NotInvokable(rows), rows);
  }

  lemma {:induction false} NotInvokableWithoutId(rows: seq<Row>)
    ensures "" !in NotInvokable(rows)
    decreases |rows|
  {
    if rows != [] {
      NotInvokableWithoutId(rows[..|rows| - 1]);
    }
  }

  lemma {:induction false} NotedWithoutId(p: Policy, start: Reasons, rows: seq<Row>)
    requires "" !in start
    ensures "" !in Noted(p, start, rows)
    decreases |rows|
  {
    if rows != [] {
      NotedWithoutId(p, start, rows[..|rows| - 1]);
    }
  }

  /** A virtual model without a profile asks for nothing and ranks. */
  lemma {:induction false} VirtualAsksNothing(p: Policy, rows: seq<Row>)
    ensures Select(p, ForVirtual, rows) == Select(p, ForProfile(Profile(r => true, false, [], true)), rows)
  {
    var available := Available(p, rows);
    var all := (r: Row) => true;
    FilterAll(all, available);
    assert ForProfile(Profile(all, false, [], true)).profile.matches == all;
  }

  lemma {:induction false} FilterAll(keep: Row -> bool, rows: seq<Row>)
    requires forall r :: keep(r)
    ensures Filter(keep, rows) == rows
    decreases |rows|
  {
    if rows != [] {
      FilterAll(keep, rows[1..]);
    }
  }

  // ---- a model asked for by name ----

  /** The first row, if it answers, and those of the others that do. */
  lemma {:induction false} NamedOfCons(p: Policy, name: string, rows: seq<Row>)
    requires rows != []
    ensures Filter(IsNamed(name), Available(p, rows)) ==
            (if IsAvailable(p, rows[0]) && IsNamed(name)(rows[0]) then [rows[0]] else [])
            + Filter(IsNamed(name), Available(p, rows[1..]))
  {
    var rest := Available(p, rows[1..]);
    if IsAvailable(p, rows[0]) {
      assert ([rows[0]] + rest)[1..] == rest;
    } else {
      assert [] + rest == rest;
      assert [] + Filter(IsNamed(name), rest) == Filter(IsNamed(name), rest);
    }
  }

  /** The row at this place may answer, and the name is its id or that of its upstream model. */
  predicate Answers(p: Policy, name: string, rows: seq<Row>, i: int) {
    0 <= i < |rows| && Hindrance(p, rows[i]).None? && (rows[i].id == name || rows[i].upstreamId == name)
  }

  /** The first such row is taken, and none only when there is none. */
  lemma {:induction false} NamedIsFirst(p: Policy, name: string, rows: seq<Row>)
    ensures var c := Candidates(p, ForModel(name), Available(p, rows));
            && |c| <= 1
            && (c == [] <==> forall i :: !Answers(p, name, rows, i))
            && forall i :: Answers(p, name, rows, i) && (forall j :: j < i ==> !Answers(p, name, rows, j)) ==>
                 c == [rows[i]]
    decreases |rows|
  {
    if rows != [] {
      var rest := rows[1..];
      NamedIsFirst(p, name, rest);
      HindranceExactly(p, rows[0]);
      NamedOfCons(p, name, rows);
      assert rows == [rows[0]] + rest;
      forall i | i > 0 ensures Answers(p, name, rows, i) <==> Answers(p, name, rest, i - 1) {
      }
      forall i ensures Answers(p, name, rest, i) <==> i >= 0 && Answers(p, name, rows, i + 1) {
      }
      assert Answers(p, name, rows, 0) <==> IsAvailable(p, rows[0]) && IsNamed(name)(rows[0]);
      if !Answers(p, name, rows, 0) {
        assert Filter(IsNamed(name), Available(p, rows)) == Filter(IsNamed(name), Available(p, rest));
        assert (forall i :: !Answers(p, name, rows, i)) <==> forall i :: !Answers(p, name, rest, i);
      }
    }
  }


  function Reversed(rows: seq<Row>): seq<Row> {
    if rows == [] then [] else Reversed(rows[1..]) + [rows[0]]
  }

  lemma {:induction false} ReversedCounts(rows: seq<Row>)
    ensures multiset(Reversed(rows)) == multiset(rows)
    decreases |rows|
  {
    if rows != [] {
      ReversedCounts(rows[1..]);
      HeadAndTail(rows);
    }
  }

  lemma {:induction false} ReversedSameRows(rows: seq<Row>)
    requires DistinctIds(rows)
    ensures SameRows(rows, Reversed(rows))
  {
    ReversedCounts(rows);
    SameRowsMembers(Reversed(rows), rows);
    DistinctCounts(rows, Reversed(rows));
  }

  lemma {:induction false} FilterReversed(keep: Row -> bool, rows: seq<Row>)
    ensures Filter(keep, Reversed(rows)) == Reversed(Filter(keep, rows))
    decreases |rows|
  {
    if rows != [] {
      FilterReversed(keep, rows[1..]);
      FilterSnoc(keep, Reversed(rows[1..]), rows[0]);
      var rest := Filter(keep, rows[1..]);
      if keep(rows[0]) {
        assert ([rows[0]] + rest)[1..] == rest;
      } else {
        assert [] + rest == rest && Reversed(rest) + [] == Reversed(rest);
      }
    }
  }

  lemma {:induction false} FirstOfReversed(rows: seq<Row>)
    requires rows != []
    ensures Reversed(rows) != [] && Reversed(rows)[0] == rows[|rows| - 1]
    decreases |rows|
  {
    if |rows| > 1 {
      FirstOfReversed(rows[1..]);
    }
  }

  ghost predicate SameCandidate(p: Policy, name: string, a: seq<Row>, b: seq<Row>) {
    Candidates(p, ForModel(name), a) == Candidates(p, ForModel(name), b)
  }

  /** A model that is asked for by name is the same in every order exactly when the name means one row at most. */
  lemma {:induction false} NamedModelExactly(p: Policy, name: string, a: seq<Row>)
    requires DistinctIds(a)
    ensures (forall b :: SameRows(a, b) ==> SameCandidate(p, name, a, b)) <==> |Filter(IsNamed(name), a)| <= 1
  {
    var named := Filter(IsNamed(name), a);
    if |named| <= 1 {
      forall b | SameRows(a, b) ensures SameCandidate(p, name, a, b) {
        FilterSameRows(IsNamed(name), a, b);
        AtMostOneRow(named, Filter(IsNamed(name), b));
      }
    } else {
      var b := Reversed(a);
      ReversedSameRows(a);
      FilterReversed(IsNamed(name), a);
      FirstOfReversed(named);
      FilterKeepsDistinct(IsNamed(name), a);
      assert !SameCandidate(p, name, a, b);
    }
  }

  lemma {:induction false} AtMostOneRow(a: seq<Row>, b: seq<Row>)
    requires |a| <= 1 && multiset(a) == multiset(b)
    ensures a == b
  {
    assert |multiset(a)| == |multiset(b)|;
    if |a| == 1 {
      assert a[0] in multiset(b);
    }
  }

  /** Two rows of one upstream model: the first of the catalog is taken, whichever it is. */
  lemma {:induction false} FirstNamedIsTaken(p: Policy, name: string, x: Row, y: Row)
    requires x.id != "" && y.id != "" && x.id != y.id && x.upstreamId == name && y.upstreamId == name
    ensures SameRows([x, y], [y, x])
    ensures Candidates(p, ForModel(name), [x, y]) == [x] && Candidates(p, ForModel(name), [y, x]) == [y]
  {
    NamedOfTwo(name, x, y);
    NamedOfTwo(name, y, x);
  }

  lemma {:induction false} NamedOfTwo(name: string, x: Row, y: Row)
    requires x.upstreamId == name && y.upstreamId == name
    ensures Filter(IsNamed(name), [x, y]) == [x, y]
  {
    assert [x, y][1..] == [y];
    assert Filter(IsNamed(name), [y][1..]) == [];
    assert Filter(IsNamed(name), [y]) == [y];
  }
}
