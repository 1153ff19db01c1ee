/** The merges of `src/ficelle/state_store.py`: what a writer with a stale copy may and may not do. */
module StateMerge {
  import opened Json
  import opened Wrappers

  /** `datetime.fromisoformat` as a UTC time stamp, and `str` of a value that is not a string. */
  datatype Clock = Clock(parse: string -> Option<real>, text: Json -> string)

  /** `runtime_evidence_timestamp_value`: the first true value under the stamp keys. */
  function StampValue(row: Json): Json {
    row.Get("verified_at").Or(row.Get("failed_at").Or(row.Get("ran_at").Or(row.Get("recorded_at"))))
  }

  /** `runtime_row_timestamp`; the text of an object or an array is never a date. */
  function Stamp(clock: Clock, row: Json): Option<real> {
    var value := StampValue(row);
    if !row.Obj? || !value.Truthy() then None
    else
      match value
      case Str(s) => clock.parse(s)
      case Obj(_) => None
      case Arr(_) => None
      case _ => clock.parse(clock.text(value))
  }

  // ---------------------------------------------------------------------------------------------
  // merge_runtime_history_rows
  // ---------------------------------------------------------------------------------------------

  /** Two rows of which at least one has a stamp: the latest, and the incoming one on a tie. */
  predicate IncomingWins(clock: Clock, current: Json, incoming: Json) {
    var c, i := Stamp(clock, current), Stamp(clock, incoming);
    i.Some? && (c.None? || i.value >= c.value)
  }

  function Merge(clock: Clock, current: Json, incoming: Json): Json
    decreases current, 1
  {
    if !current.Obj? || !incoming.Obj? then incoming
    else
      Obj(map k | k in current.fields.Keys + incoming.fields.Keys :: MergedValue(clock, current, incoming, k))
  }

  function MergedValue(clock: Clock, current: Json, incoming: Json, k: string): Json
    requires current.Obj? && incoming.Obj? && k in current.fields.Keys + incoming.fields.Keys
    decreases current, 0
  {
    if k !in incoming.fields then current.fields[k]
    else if k !in current.fields then incoming.fields[k]
    else MergeEntry(clock, current.fields[k], incoming.fields[k])
  }

  /** A key that both sides have. */
  function MergeEntry(clock: Clock, c: Json, i: Json): Json
    decreases c, 2
  {
    if !c.Obj? then i
    else if !i.Obj? then c
    else if Stamp(clock, c).Some? || Stamp(clock, i).Some? then
      if IncomingWins(clock, c, i) then i else c
    else Merge(clock, c, i)
  }

  method MergeSharedKey(clock: Clock, c: Json, i: Json) returns (value: Json)
    ensures value == MergeEntry(clock, c, i)
    decreases c, 2
  {
    if c.Obj? && i.Obj? {
      if Stamp(clock, c).Some? || Stamp(clock, i).Some? {
        value := if IncomingWins(clock, c, i) then i else c;
      } else {
        value := MergeRuntimeHistoryRows(clock, c, i);
      }
    } else if c.Obj? {
      value := c;
    } else {
      value := i;
    }
  }

  method MergeCurrentKey(clock: Clock, current: Json, incoming: Json, k: string) returns (value: Json)
    requires current.Obj? && incoming.Obj? && k in current.fields
    ensures value == Merge(clock, current, incoming).fields[k]
    decreases current, 0, 0
  {
    if k !in incoming.fields {
      return current.fields[k];
    }
    value := MergeSharedKey(clock, current.fields[k], incoming.fields[k]);
  }

  /** What is filled in so far is what the target has under those keys. */
  ghost predicate Filled(target: map<string, Json>, rows: map<string, Json>) {
    rows.Keys <= target.Keys && forall k :: k in rows ==> rows[k] == target[k]
  }

  /** The keys `left` are still to do; the others are filled in. */
  ghost predicate Filling(target: map<string, Json>, all: set<string>, left: set<string>, rows: map<string, Json>) {
    left <= all && rows.Keys == all - left && Filled(target, rows)
  }

  lemma {:induction false} FillOne(target: map<string, Json>, all: set<string>, left: set<string>,
                                   rows: map<string, Json>, k: string)
    requires Filling(target, all, left, rows) && all <= target.Keys && k in left
    ensures Filling(target, all, left - {k}, rows[k := target[k]]) && |left - {k}| < |left|
  {
  }

  method MergeCurrentKeys(clock: Clock, current: Json, incoming: Json, ghost target: map<string, Json>)
    returns (rows: map<string, Json>)
    requires current.Obj? && incoming.Obj? && target == Merge(clock, current, incoming).fields
    ensures Filled(target, rows) && rows.Keys == current.fields.Keys
    decreases current, 0, 1
  {
    rows := map[];
    var left := current.fields.Keys;
    while left != {}
      invariant Filling(target, current.fields.Keys, left, rows)
      decreases |left|
    {
      var k :| k in left;
      var value := MergeCurrentKey(clock, current, incoming, k);
      FillOne(target, current.fields.Keys, left, rows, k);
      rows := rows[k := value];
      left := left - {k};
    }
  }

  /** The merge as the source does it: one dictionary, the current keys first, then the new ones. */
  method MergeRuntimeHistoryRows(clock: Clock, current: Json, incoming: Json) returns (merged: Json)
    ensures merged == Merge(clock, current, incoming)
    decreases current, 1
  {
    if !current.Obj? || !incoming.Obj? {
      return incoming;
    }
    ghost var target := Merge(clock, current, incoming).fields;
    var rows := MergeCurrentKeys(clock, current, incoming, target);
    MergedKeys(clock, current, incoming);
    forall k | k in incoming.fields && k !in current.fields ensures target[k] == incoming.fields[k] {
      NewKey(clock, current, incoming, k);
    }
    rows := AddNewKeys(incoming.fields, rows, target);
    FilledUp(target, rows);
    return Obj(rows);
  }

  lemma {:induction false} FilledUp(target: map<string, Json>, rows: map<string, Json>)
    requires Filled(target, rows) && rows.Keys == target.Keys
    ensures rows == target
  {
  }

  lemma {:induction false} MergedKeys(clock: Clock, current: Json, incoming: Json)
    requires current.Obj? && incoming.Obj?
    ensures Merge(clock, current, incoming).fields.Keys == current.fields.Keys + incoming.fields.Keys
  {
  }

  lemma {:induction false} NewKey(clock: Clock, current: Json, incoming: Json, k: string)
    requires current.Obj? && incoming.Obj? && k in incoming.fields && k !in current.fields
    ensures k in Merge(clock, current, incoming).fields
    ensures Merge(clock, current, incoming).fields[k] == incoming.fields[k]
  {
  }

  /** The keys that only the incoming side has. */
  method AddNewKeys(incoming: map<string, Json>, known: map<string, Json>, ghost target: map<string, Json>)
    returns (rows: map<string, Json>)
    requires target.Keys == known.Keys + incoming.Keys && Filled(target, known)
    requires forall k :: k in incoming && k !in known ==> target[k] == incoming[k]
    ensures Filled(target, rows) && rows.Keys == target.Keys
  {
    rows := known;
    var left := incoming.Keys - known.Keys;
    while left != {}
      invariant left <= incoming.Keys - known.Keys
      invariant Filling(target, target.Keys, left, rows)
      decreases |left|
    {
      var k :| k in left;
      FillOne(target, target.Keys, left, rows, k);
      rows := rows[k := incoming[k]];
      left := left - {k};
    }
  }

  // ---------------------------------------------------------------------------------------------
  // Two-level histories
  // ---------------------------------------------------------------------------------------------

  /** Models, then profiles, then rows that all carry a stamp. */
  ghost predicate TwoLevel(clock: Clock, h: Json) {
    && h.Obj?
    && forall m :: m in h.fields ==> ModelLevel(clock, h.fields[m])
  }

  ghost predicate ModelLevel(clock: Clock, model: Json) {
    && model.Obj?
    && forall p :: p in model.fields ==> model.fields[p].Obj? && Stamp(clock, model.fields[p]).Some?
  }

  function RowAt(h: Json, m: string, p: string): Option<Json> {
    if h.Obj? && m in h.fields && h.fields[m].Obj? && p in h.fields[m].fields then Some(h.fields[m].fields[p]) else None
  }

  /** The row with the latest stamp, the right one on a tie. */
  function Latest(clock: Clock, a: Option<Json>, b: Option<Json>): Option<Json> {
    if a.None? then b
    else if b.None? then a
    else if IncomingWins(clock, a.value, b.value) then b else a
  }

  /** A model level is not itself taken for a row. */
  lemma {:induction false} ModelLevelHasNoStamp(clock: Clock, model: Json)
    requires ModelLevel(clock, model)
    ensures Stamp(clock, model).None?
  {
    forall k ensures model.Get(k).Obj? || model.Get(k).Null? {
    }
    assert StampValue(model).Obj? || StampValue(model).Null?;
  }

  lemma {:induction false} MergeModelLevel(clock: Clock, a: Json, b: Json)
    requires ModelLevel(clock, a) && ModelLevel(clock, b)
    ensures ModelLevel(clock, Merge(clock, a, b))
  {
    var merged := Merge(clock, a, b);
    forall p | p in merged.fields ensures merged.fields[p].Obj? && Stamp(clock, merged.fields[p]).Some? {
      assert merged.fields[p] == MergedValue(clock, a, b, p);
    }
  }

  /** One model of the merge: the merge of the two models, or the one there is. */
  lemma {:induction false} MergedModel(clock: Clock, a: Json, b: Json, m: string)
    requires TwoLevel(clock, a) && TwoLevel(clock, b) && m in a.fields.Keys + b.fields.Keys
    ensures MergedValue(clock, a, b, m) ==
            if m !in b.fields then a.fields[m]
            else if m !in a.fields then b.fields[m]
            else Merge(clock, a.fields[m], b.fields[m])
    ensures ModelLevel(clock, MergedValue(clock, a, b, m))
  {
    if m in a.fields && m in b.fields {
      ModelLevelHasNoStamp(clock, a.fields[m]);
      ModelLevelHasNoStamp(clock, b.fields[m]);
      MergeModelLevel(clock, a.fields[m], b.fields[m]);
    }
  }

  function Under(model: Json, p: string): Option<Json> {
    if model.Obj? && p in model.fields then Some(model.fields[p]) else None
  }

  lemma {:induction false} MergedRow(clock: Clock, a: Json, b: Json, p: string)
    requires ModelLevel(clock, a) && ModelLevel(clock, b)
    ensures Under(Merge(clock, a, b), p) == Latest(clock, Under(a, p), Under(b, p))
  {
    if p in a.fields.Keys + b.fields.Keys {
      assert Merge(clock, a, b).fields[p] == MergedValue(clock, a, b, p);
    }
  }

  /** The merge keeps every model and every profile of both sides, each with its latest row. */
  lemma {:induction false} MergeKeepsLatest(clock: Clock, a: Json, b: Json, m: string, p: string)
    requires TwoLevel(clock, a) && TwoLevel(clock, b)
    ensures RowAt(Merge(clock, a, b), m, p) == Latest(clock, RowAt(a, m, p), RowAt(b, m, p))
  {
    if m in a.fields.Keys + b.fields.Keys {
      assert Merge(clock, a, b).fields[m] == MergedValue(clock, a, b, m);
      MergedModel(clock, a, b, m);
      if m in a.fields && m in b.fields {
        MergedRow(clock, a.fields[m], b.fields[m], p);
      }
    }
  }

  /** The value of the first stamp key that says something. */
  function FirstStamp(row: Json, keys: seq<string>): Option<Json>
    decreases |keys|
  {
    if keys == [] then None
    else if IsFalsy(row.Get(keys[0])) then FirstStamp(row, keys[1..])
    else Some(row.Get(keys[0]))
  }

  const STAMP_KEYS: seq<string> := ["verified_at", "failed_at", "ran_at", "recorded_at"]

  /** The date of a row is what that value, as text, is the date of. */
  lemma {:induction false} StampExactly(clock: Clock, row: Json)
    ensures Stamp(clock, row) ==
            match FirstStamp(row, STAMP_KEYS)
            case None => None
            case Some(Str(s)) => clock.parse(s)
            case Some(Obj(_)) => None
            case Some(Arr(_)) => None
            case Some(value) => clock.parse(clock.text(value))
  {
    var a, b, c, d := row.Get("verified_at"), row.Get("failed_at"), row.Get("ran_at"), row.Get("recorded_at");
    FalsyExactly(a);
    FalsyExactly(b);
    FalsyExactly(c);
    FalsyExactly(d);
    var keys := STAMP_KEYS;
    assert keys[1..] == ["failed_at", "ran_at", "recorded_at"];
    assert keys[1..][1..] == ["ran_at", "recorded_at"];
    assert keys[1..][1..][1..] == ["recorded_at"];
    FourKeys(row);
  }

  lemma {:induction false} FourKeys(row: Json)
    ensures FirstStamp(row, STAMP_KEYS) ==
            if !IsFalsy(row.Get("verified_at")) then Some(row.Get("verified_at"))
            else if !IsFalsy(row.Get("failed_at")) then Some(row.Get("failed_at"))
            else if !IsFalsy(row.Get("ran_at")) then Some(row.Get("ran_at"))
            else if !IsFalsy(row.Get("recorded_at")) then Some(row.Get("recorded_at"))
            else None
  {
    var last := ["recorded_at"];
    assert last[1..] == [] && FirstStamp(row, last[1..]) == None;
    assert ["ran_at", "recorded_at"][1..] == last;
    assert ["failed_at", "ran_at", "recorded_at"][1..] == ["ran_at", "recorded_at"];
    assert STAMP_KEYS[1..] == ["failed_at", "ran_at", "recorded_at"];
  }

  /** Under every model and profile: the only row, or the later one, and the incoming one on a tie. */
  lemma {:induction false} MergedRowExactly(clock: Clock, a: Json, b: Json, m: string, p: string)
    requires TwoLevel(clock, a) && TwoLevel(clock, b)
    ensures var x, y, z := RowAt(a, m, p), RowAt(b, m, p), RowAt(Merge(clock, a, b), m, p);
            && (x.None? ==> z == y) && (y.None? ==> z == x)
            && (x.Some? && y.Some? ==>
                  && Stamp(clock, x.value).Some? && Stamp(clock, y.value).Some?
                  && z == if Stamp(clock, y.value).value >= Stamp(clock, x.value).value then y else x)
  {
    MergeKeepsLatest(clock, a, b, m, p);
    if RowAt(a, m, p).Some? {
      assert ModelLevel(clock, a.fields[m]);
    }
    if RowAt(b, m, p).Some? {
      assert ModelLevel(clock, b.fields[m]);
    }
  }

  lemma {:induction false} MergeIsTwoLevel(clock: Clock, a: Json, b: Json)
    requires TwoLevel(clock, a) && TwoLevel(clock, b)
    ensures TwoLevel(clock, Merge(clock, a, b))
    ensures Merge(clock, a, b).fields.Keys == a.fields.Keys + b.fields.Keys
  {
    forall m | m in a.fields.Keys + b.fields.Keys ensures ModelLevel(clock, MergedValue(clock, a, b, m)) {
      MergedModel(clock, a, b, m);
    }
  }

  // ---------------------------------------------------------------------------------------------
  // When the order of the merges makes no difference
  // ---------------------------------------------------------------------------------------------

  predicate HasDate(clock: Clock, row: Json) {
    Stamp(clock, row).Some?
  }

  /** The date of `x` is later than that of `y`. */
  predicate After(clock: Clock, x: Json, y: Json)
    requires HasDate(clock, x) && HasDate(clock, y)
  {
    Stamp(clock, x).value > Stamp(clock, y).value
  }

  /** Three entries under one key, of which at least one has a date. */
  predicate DatedAssociate(clock: Clock, x: Json, y: Json, z: Json) {
    var xy, yz := Merge(clock, x, y), Merge(clock, y, z);
    if HasDate(clock, y) || (HasDate(clock, x) && HasDate(clock, z)) then true
    else if HasDate(clock, x) then !HasDate(clock, yz) || After(clock, x, yz) || yz == x
    else HasDate(clock, z) ==> !HasDate(clock, xy) || !After(clock, xy, z)
  }

  /** Three entries without a date, when merging two of them makes one. */
  predicate BecomeDatedAssociate(clock: Clock, x: Json, y: Json, z: Json) {
    var xy, yz := Merge(clock, x, y), Merge(clock, y, z);
    if HasDate(clock, xy) && HasDate(clock, yz) then xy == yz
    else if HasDate(clock, xy) then xy == Merge(clock, x, yz)
    else Merge(clock, xy, z) == yz
  }

  /** Under one key the two orders of merging agree. */
  predicate Associates(clock: Clock, x: Json, y: Json, z: Json)
    decreases x, 1
  {
    if !x.Obj? || !y.Obj? || !z.Obj? then true
    else if HasDate(clock, x) || HasDate(clock, y) || HasDate(clock, z) then DatedAssociate(clock, x, y, z)
    else if HasDate(clock, Merge(clock, x, y)) || HasDate(clock, Merge(clock, y, z)) then
      BecomeDatedAssociate(clock, x, y, z)
    else AllAssociate(clock, x, y, z)
  }

  /** So under every key that all three have. */
  predicate AllAssociate(clock: Clock, a: Json, b: Json, c: Json)
    requires a.Obj? && b.Obj? && c.Obj?
    decreases a, 0
  {
    forall k :: k in a.fields && k in b.fields && k in c.fields ==>
      Associates(clock, a.fields[k], b.fields[k], c.fields[k])
  }

  lemma {:induction false} EntryOfObjects(clock: Clock, x: Json, y: Json)
    requires x.Obj? && y.Obj?
    ensures MergeEntry(clock, x, y).Obj?
    ensures MergeEntry(clock, x, y) ==
            if !HasDate(clock, x) && !HasDate(clock, y) then Merge(clock, x, y)
            else if IncomingWins(clock, x, y) then y else x
  {
  }

  lemma {:induction false} DatedExactly(clock: Clock, x: Json, y: Json, z: Json)
    requires x.Obj? && y.Obj? && z.Obj?
    requires HasDate(clock, x) || HasDate(clock, y) || HasDate(clock, z)
    ensures MergeEntry(clock, MergeEntry(clock, x, y), z) == MergeEntry(clock, x, MergeEntry(clock, y, z)) <==>
            DatedAssociate(clock, x, y, z)
  {
    EntryOfObjects(clock, x, y);
    EntryOfObjects(clock, y, z);
    EntryOfObjects(clock, MergeEntry(clock, x, y), z);
    EntryOfObjects(clock, x, MergeEntry(clock, y, z));
  }

  lemma {:induction false} BecomeDatedExactly(clock: Clock, x: Json, y: Json, z: Json)
    requires x.Obj? && y.Obj? && z.Obj?
    requires !HasDate(clock, x) && !HasDate(clock, y) && !HasDate(clock, z)
    requires HasDate(clock, Merge(clock, x, y)) || HasDate(clock, Merge(clock, y, z))
    ensures MergeEntry(clock, MergeEntry(clock, x, y), z) == MergeEntry(clock, x, MergeEntry(clock, y, z)) <==>
            BecomeDatedAssociate(clock, x, y, z)
  {
    EntryOfObjects(clock, x, y);
    EntryOfObjects(clock, y, z);
    EntryOfObjects(clock, Merge(clock, x, y), z);
    EntryOfObjects(clock, x, Merge(clock, y, z));
  }

  lemma {:induction false} EntryAssociatesExactly(clock: Clock, x: Json, y: Json, z: Json)
    ensures MergeEntry(clock, MergeEntry(clock, x, y), z) == MergeEntry(clock, x, MergeEntry(clock, y, z)) <==>
            Associates(clock, x, y, z)
    decreases x, 1
  {
    if x.Obj? && y.Obj? && z.Obj? {
      var xy, yz := Merge(clock, x, y), Merge(clock, y, z);
      if HasDate(clock, x) || HasDate(clock, y) || HasDate(clock, z) {
        DatedExactly(clock, x, y, z);
      } else if HasDate(clock, xy) || HasDate(clock, yz) {
        BecomeDatedExactly(clock, x, y, z);
      } else {
        EntryOfObjects(clock, x, y);
        EntryOfObjects(clock, y, z);
        EntryOfObjects(clock, xy, z);
        EntryOfObjects(clock, x, yz);
        ObjectsAssociateExactly(clock, x, y, z);
      }
    }
  }

  /** A key of the merge, when it is on one side only or on both. */
  lemma {:induction false} MergedAt(clock: Clock, a: Json, b: Json, k: string)
    requires a.Obj? && b.Obj?
    ensures k in Merge(clock, a, b).fields <==> k in a.fields || k in b.fields
    ensures k in a.fields && k !in b.fields ==> Merge(clock, a, b).fields[k] == a.fields[k]
    ensures k !in a.fields && k in b.fields ==> Merge(clock, a, b).fields[k] == b.fields[k]
    ensures k in a.fields && k in b.fields ==>
              Merge(clock, a, b).fields[k] == MergeEntry(clock, a.fields[k], b.fields[k])
  {
    if k in a.fields || k in b.fields {
      assert Merge(clock, a, b).fields[k] == MergedValue(clock, a, b, k);
    }
  }

  function FieldAt(a: Json, k: string): Option<Json> {
    if a.Obj? && k in a.fields then Some(a.fields[k]) else None
  }

  lemma {:induction false} SameFields(a: Json, b: Json)
    requires a.Obj? && b.Obj?
    ensures a == b <==> forall k :: FieldAt(a, k) == FieldAt(b, k)
  {
    if forall k :: FieldAt(a, k) == FieldAt(b, k) {
      forall k ensures k in a.fields <==> k in b.fields {
        assert FieldAt(a, k) == FieldAt(b, k);
      }
      forall k | k in a.fields ensures a.fields[k] == b.fields[k] {
        assert FieldAt(a, k) == FieldAt(b, k);
      }
      assert a.fields == b.fields;
    }
  }

  lemma {:induction false} KeyAssociatesExactly(clock: Clock, a: Json, b: Json, c: Json, k: string)
    requires a.Obj? && b.Obj? && c.Obj?
    ensures var ab, bc := Merge(clock, a, b), Merge(clock, b, c);
            FieldAt(Merge(clock, ab, c), k) == FieldAt(Merge(clock, a, bc), k) <==>
            (k in a.fields && k in b.fields && k in c.fields ==>
              Associates(clock, a.fields[k], b.fields[k], c.fields[k]))
    decreases a, 0, 0
  {
    var ab, bc := Merge(clock, a, b), Merge(clock, b, c);
    MergedAt(clock, a, b, k);
    MergedAt(clock, b, c, k);
    MergedAt(clock, ab, c, k);
    MergedAt(clock, a, bc, k);
    if k in a.fields && k in b.fields && k in c.fields {
      EntryAssociatesExactly(clock, a.fields[k], b.fields[k], c.fields[k]);
    }
  }

  lemma {:induction false} ObjectsAssociateExactly(clock: Clock, a: Json, b: Json, c: Json)
    requires a.Obj? && b.Obj? && c.Obj?
    ensures Merge(clock, Merge(clock, a, b), c) == Merge(clock, a, Merge(clock, b, c)) <==>
            AllAssociate(clock, a, b, c)
    decreases a, 0, 1
  {
    var ab, bc := Merge(clock, a, b), Merge(clock, b, c);
    SameFields(Merge(clock, ab, c), Merge(clock, a, bc));
    forall k
      ensures FieldAt(Merge(clock, ab, c), k) == FieldAt(Merge(clock, a, bc), k) <==>
              (k in a.fields && k in b.fields && k in c.fields ==>
                Associates(clock, a.fields[k], b.fields[k], c.fields[k]))
    {
      KeyAssociatesExactly(clock, a, b, c, k);
    }
  }

  /**
    The two orders of merging three histories agree exactly when they do under every key that all three
    have; a stored value that is no object at all is forgotten by one of the orders only.
   */
  lemma {:induction false} MergeAssociatesExactly(clock: Clock, a: Json, b: Json, c: Json)
    ensures Merge(clock, Merge(clock, a, b), c) == Merge(clock, a, Merge(clock, b, c)) <==>
            if !a.Obj? || !c.Obj? then true
            else if !b.Obj? then Merge(clock, a, c) == c
            else AllAssociate(clock, a, b, c)
  {
    if a.Obj? && b.Obj? && c.Obj? {
      ObjectsAssociateExactly(clock, a, b, c);
    }
  }

  lemma {:induction false} ModelsAssociate(clock: Clock, x: Json, y: Json, z: Json)
    requires ModelLevel(clock, x) && ModelLevel(clock, y) && ModelLevel(clock, z)
    ensures Associates(clock, x, y, z)
  {
    ModelLevelHasNoStamp(clock, x);
    ModelLevelHasNoStamp(clock, y);
    ModelLevelHasNoStamp(clock, z);
    MergeModelLevel(clock, x, y);
    MergeModelLevel(clock, y, z);
    ModelLevelHasNoStamp(clock, Merge(clock, x, y));
    ModelLevelHasNoStamp(clock, Merge(clock, y, z));
    forall p | p in x.fields && p in y.fields && p in z.fields
      ensures Associates(clock, x.fields[p], y.fields[p], z.fields[p])
    {
      assert HasDate(clock, y.fields[p]);
    }
  }

  /** On two-level histories of dated rows the order makes no difference. */
  lemma {:induction false} MergeIsAssociative(clock: Clock, a: Json, b: Json, c: Json)
    requires TwoLevel(clock, a) && TwoLevel(clock, b) && TwoLevel(clock, c)
    ensures Merge(clock, Merge(clock, a, b), c) == Merge(clock, a, Merge(clock, b, c))
  {
    forall m | m in a.fields && m in b.fields && m in c.fields
      ensures Associates(clock, a.fields[m], b.fields[m], c.fields[m])
    {
      ModelsAssociate(clock, a.fields[m], b.fields[m], c.fields[m]);
    }
    MergeAssociatesExactly(clock, a, b, c);
  }

  // ---- where it is not: a row whose date only shows after a merge ----

  function OneRow(row: Json): Json {
    Obj(map["m" := row])
  }

  lemma {:induction false} MergeOneRow(clock: Clock, x: Json, y: Json)
    ensures Merge(clock, OneRow(x), OneRow(y)) == OneRow(MergeEntry(clock, x, y))
  {
    var merged := Merge(clock, OneRow(x), OneRow(y));
    assert merged.fields["m"] == MergedValue(clock, OneRow(x), OneRow(y), "m");
    assert merged.fields == map["m" := MergeEntry(clock, x, y)];
  }

  function Dated(verified: string): Json {
    Obj(map["verified_at" := Str(verified)])
  }

  function TwoDates(verified: string, failed: string): Json {
    Obj(map["verified_at" := Str(verified), "failed_at" := Str(failed)])
  }

  lemma {:induction false} StampsOf(clock: Clock, verified: string, failed: string)
    ensures Stamp(clock, Dated(verified)) == if verified != "" then clock.parse(verified) else None
    ensures Stamp(clock, TwoDates(verified, failed)) ==
            if verified != "" then clock.parse(verified) else if failed != "" then clock.parse(failed) else None
  {
    assert Dated(verified).Get("verified_at") == Str(verified);
    assert Dated(verified).Get("failed_at").Or(Null.Or(Null)) == Null;
    assert TwoDates(verified, failed).Get("verified_at") == Str(verified);
    assert TwoDates(verified, failed).Get("failed_at") == Str(failed);
  }

  lemma {:induction false} MergeDates(clock: Clock, verified: string, failed: string)
    requires Stamp(clock, TwoDates(verified, failed)).None?
    ensures MergeEntry(clock, TwoDates(verified, failed), Dated("")) == TwoDates("", failed)
  {
    StampsOf(clock, "", failed);
    var x, y := TwoDates(verified, failed), Dated("");
    var merged := Merge(clock, x, y);
    assert merged.fields["verified_at"] == MergedValue(clock, x, y, "verified_at") == Str("");
    assert merged.fields["failed_at"] == MergedValue(clock, x, y, "failed_at") == Str(failed);
    assert merged.fields == TwoDates("", failed).fields;
  }

  /**
    A row whose first stamp key holds no date, and then a writer that blanks that key: the second date
    counts when these two are merged first, and is lost when the blank is merged with a dated row first.
   */
  lemma {:induction false} UndatedRowsDoNotAssociate(clock: Clock, bad: string, early: string, late: string)
    requires bad != "" && clock.parse(bad).None? && early != "" && late != ""
    requires clock.parse(early).Some? && clock.parse(late).Some? && clock.parse(early).value < clock.parse(late).value
    ensures var a, b, c := OneRow(TwoDates(bad, late)), OneRow(Dated("")), OneRow(Dated(early));
            Merge(clock, Merge(clock, a, b), c) != Merge(clock, a, Merge(clock, b, c))
  {
    var x, y, z := TwoDates(bad, late), Dated(""), Dated(early);
    StampsOf(clock, bad, late);
    StampsOf(clock, "", late);
    StampsOf(clock, early, late);
    MergeDates(clock, bad, late);
    MergeOneRow(clock, x, y);
    MergeOneRow(clock, TwoDates("", late), z);
    MergeOneRow(clock, y, z);
    MergeOneRow(clock, x, z);
    assert MergeEntry(clock, TwoDates("", late), z) == TwoDates("", late);
    assert MergeEntry(clock, y, z) == z && MergeEntry(clock, x, z) == z;
    assert OneRow(TwoDates("", late)).fields["m"] != OneRow(z).fields["m"] by {
      assert "failed_at" in TwoDates("", late).fields && "failed_at" !in z.fields;
    }
  }

  /** Merging anything with itself changes nothing. */
  lemma {:induction false} MergeIsIdempotent(clock: Clock, a: Json)
    ensures Merge(clock, a, a) == a
    decreases a
  {
    if a.Obj? {
      forall k ensures FieldAt(Merge(clock, a, a), k) == FieldAt(a, k) {
        MergedAt(clock, a, a, k);
        if k in a.fields && a.fields[k].Obj? {
          MergeIsIdempotent(clock, a.fields[k]);
        }
      }
      SameFields(Merge(clock, a, a), a);
    }
  }

  // ---------------------------------------------------------------------------------------------
  // What a stale or careless writer can undo
  // ---------------------------------------------------------------------------------------------

  /** No dated row of `before` is missing from `after` or went back in time. */
  ghost predicate NothingUndone(clock: Clock, before: Json, after: Json) {
    forall m, p :: RowAt(before, m, p).Some? ==> Outlives(clock, RowAt(before, m, p).value, RowAt(after, m, p))
  }

  ghost predicate Outlives(clock: Clock, row: Json, later: Option<Json>) {
    Stamp(clock, row).Some? ==>
      && later.Some?
      && Stamp(clock, later.value).Some?
      && Stamp(clock, row).value <= Stamp(clock, later.value).value
  }

  lemma {:induction false} NothingUndoneTwice(clock: Clock, a: Json, b: Json, c: Json)
    requires NothingUndone(clock, a, b) && NothingUndone(clock, b, c)
    ensures NothingUndone(clock, a, c)
  {
    forall m, p | RowAt(a, m, p).Some? ensures Outlives(clock, RowAt(a, m, p).value, RowAt(c, m, p)) {
      assert Outlives(clock, RowAt(a, m, p).value, RowAt(b, m, p));
      if RowAt(b, m, p).Some? {
        assert Outlives(clock, RowAt(b, m, p).value, RowAt(c, m, p));
      }
    }
  }

  /** No model entry of the incoming history carries a stamp of its own. */
  ghost predicate NoStampedModel(clock: Clock, incoming: Json)
    requires incoming.Obj?
  {
    forall m :: m in incoming.fields && incoming.fields[m].Obj? ==> Stamp(clock, incoming.fields[m]).None?
  }

  lemma {:induction false} UnstampedModelUndoesNothing(clock: Clock, current: Json, incoming: Json, m: string,
                                                       p: string)
    requires incoming.Obj? && NoStampedModel(clock, incoming)
    requires RowAt(current, m, p).Some?
    ensures Outlives(clock, RowAt(current, m, p).value, RowAt(Merge(clock, current, incoming), m, p))
  {
    var c := current.fields[m];
    assert Merge(clock, current, incoming).fields[m] == MergedValue(clock, current, incoming, m);
    if m in incoming.fields && incoming.fields[m].Obj? && Stamp(clock, c).None? {
      var i := incoming.fields[m];
      assert MergedValue(clock, current, incoming, m) == Merge(clock, c, i);
      assert Merge(clock, c, i).fields[p] == MergedValue(clock, c, i, p);
    }
  }

  /** A string longer than every string of the set. */
  lemma {:induction false} FreshKey(keys: set<string>) returns (k: string)
    ensures forall x :: x in keys ==> |x| < |k|
    decreases |keys|
  {
    if keys == {} {
      k := "x";
    } else {
      var x :| x in keys;
      k := FreshKey(keys - {x});
      if |k| <= |x| {
        k := x + "x";
      }
    }
  }

  /** A stamped model entry replaces the stored model, and with it a profile it does not have. */
  lemma {:induction false} StampedModelUndoes(clock: Clock, incoming: Json, m: string, date: string)
    returns (current: Json)
    requires incoming.Obj? && m in incoming.fields && incoming.fields[m].Obj?
    requires Stamp(clock, incoming.fields[m]).Some?
    requires date != "" && clock.parse(date).Some?
    ensures TwoLevel(clock, current) && !NothingUndone(clock, current, Merge(clock, current, incoming))
  {
    var model := incoming.fields[m];
    var p := FreshKey(model.fields.Keys);
    assert p !in model.fields.Keys;
    var row := Obj(map["verified_at" := Str(date)]);
    assert StampValue(row) == Str(date);
    current := Obj(map[m := Obj(map[p := row])]);
    assert ModelLevel(clock, current.fields[m]);
    ModelLevelHasNoStamp(clock, current.fields[m]);
    var merged := Merge(clock, current, incoming);
    assert merged.fields[m] == MergedValue(clock, current, incoming, m) == model;
    assert RowAt(current, m, p) == Some(row) && RowAt(merged, m, p) == None;
    assert !Outlives(clock, row, RowAt(merged, m, p));
  }

  /**
    A writer can undo no evidence, whatever is stored, exactly when none of the model entries it holds
    carries a stamp of its own.
   */
  lemma {:induction false} WritersThatUndoNothing(clock: Clock, incoming: Json, date: string)
    requires incoming.Obj? && date != "" && clock.parse(date).Some?
    ensures (forall current :: NothingUndone(clock, current, Merge(clock, current, incoming)))
            <==> NoStampedModel(clock, incoming)
  {
    if NoStampedModel(clock, incoming) {
      forall current ensures NothingUndone(clock, current, Merge(clock, current, incoming)) {
        UndoesNothing(clock, current, incoming);
      }
    } else {
      var m :| m in incoming.fields && incoming.fields[m].Obj? && Stamp(clock, incoming.fields[m]).Some?;
      var current := StampedModelUndoes(clock, incoming, m, date);
    }
  }

  lemma {:induction false} UndoesNothing(clock: Clock, current: Json, incoming: Json)
    requires incoming.Obj? && NoStampedModel(clock, incoming)
    ensures NothingUndone(clock, current, Merge(clock, current, incoming))
  {
    forall m, p | RowAt(current, m, p).Some?
      ensures Outlives(clock, RowAt(current, m, p).value, RowAt(Merge(clock, current, incoming), m, p))
    {
      UnstampedModelUndoesNothing(clock, current, incoming, m, p);
    }
  }

  // ---------------------------------------------------------------------------------------------
  // merge_quality_feedback_history
  // ---------------------------------------------------------------------------------------------

  function Fields(j: Json): map<string, Json> {
    if j.Obj? then j.fields else map[]
  }

  /** `parse_iso_timestamp(row.get("expires_at"))`. */
  function ExpiresAt(clock: Clock, row: Json): Option<real> {
    if row.Get("expires_at").IsText() then clock.parse(row.Get("expires_at").s) else None
  }

  predicate IsActive(clock: Clock, row: Json, now: real) {
    row.Obj? && ExpiresAt(clock, row).Some? && ExpiresAt(clock, row).value > now
  }

  /** `_quality_feedback_slots`. */
  function ActiveSlots(clock: Clock, ledger: Json, now: real): map<string, Json> {
    var slots := Fields(ledger.Get("event_slots"));
    map s | s in slots && IsActive(clock, slots[s], now) :: slots[s]
  }

  /** `_quality_feedback_revision`. */
  function Revision(row: Json): Option<nat> {
    if row.Get("revision").Int? && row.Get("revision").n >= 1 then Some(row.Get("revision").n) else None
  }

  /** The slot of greater revision, the stored one on a tie. */
  function Newest(current: Json, incoming: Json): Json {
    var c, i := Revision(current), Revision(incoming);
    if i.Some? && (c.None? || i.value > c.value) then incoming else current
  }

  function MergeSlots(a: map<string, Json>, b: map<string, Json>): map<string, Json> {
    map s | s in a.Keys + b.Keys :: if s !in a then b[s] else if s !in b then a[s] else Newest(a[s], b[s])
  }

  function SlotsOf(clock: Clock, profiles: map<string, Json>, p: string, now: real): map<string, Json> {
    if p in profiles then ActiveSlots(clock, profiles[p], now) else map[]
  }

  function MergedSlots(clock: Clock, a: map<string, Json>, b: map<string, Json>, p: string,
                       now: real): map<string, Json> {
    MergeSlots(SlotsOf(clock, a, p, now), SlotsOf(clock, b, p, now))
  }

  function Ledger(slots: map<string, Json>): Json {
    Obj(map["event_slots" := Obj(slots)])
  }

  function MergeProfiles(clock: Clock, a: map<string, Json>, b: map<string, Json>, now: real): map<string, Json> {
    map p | p in a.Keys + b.Keys
        && MergedSlots(clock, a, b, p, now) != map[] :: Ledger(MergedSlots(clock, a, b, p, now))
  }

  function ProfilesOf(models: map<string, Json>, m: string): map<string, Json> {
    if m in models then Fields(models[m]) else map[]
  }

  function MergedProfiles(clock: Clock, a: Json, b: Json, m: string, now: real): map<string, Json> {
    MergeProfiles(clock, ProfilesOf(Fields(a), m), ProfilesOf(Fields(b), m), now)
  }

  function MergeFeedback(clock: Clock, a: Json, b: Json, now: real): Json {
    Obj(map m | m in Fields(a).Keys + Fields(b).Keys && MergedProfiles(clock, a, b, m, now) != map[] ::
      Obj(MergedProfiles(clock, a, b, m, now)))
  }

  /** The active slot under three keys. */
  function SlotAt(clock: Clock, h: Json, m: string, p: string, s: string, now: real): Option<Json> {
    var slots := SlotsOf(clock, ProfilesOf(Fields(h), m), p, now);
    if s in slots then Some(slots[s]) else None
  }

  function NewestSlot(a: Option<Json>, b: Option<Json>): Option<Json> {
    if a.None? then b else if b.None? then a else Some(Newest(a.value, b.value))
  }

  lemma {:induction false} ActiveOfMerged(clock: Clock, a: map<string, Json>, b: map<string, Json>, p: string,
                                          now: real)
    ensures ActiveSlots(clock, Ledger(MergedSlots(clock, a, b, p, now)), now) == MergedSlots(clock, a, b, p, now)
  {
    var slots := MergedSlots(clock, a, b, p, now);
    assert Ledger(slots).Get("event_slots") == Obj(slots);
    forall s | s in slots ensures IsActive(clock, slots[s], now) {
      assert s in SlotsOf(clock, a, p, now) ==> IsActive(clock, SlotsOf(clock, a, p, now)[s], now);
      assert s in SlotsOf(clock, b, p, now) ==> IsActive(clock, SlotsOf(clock, b, p, now)[s], now);
    }
  }

  lemma {:induction false} NoKeys(m: map<string, Json>)
    requires m.Keys == {}
    ensures m == map[]
  {
  }

  lemma {:induction false} SlotsOfMergedProfiles(clock: Clock, a: map<string, Json>, b: map<string, Json>, p: string,
                                                 now: real)
    ensures SlotsOf(clock, MergeProfiles(clock, a, b, now), p, now) == MergedSlots(clock, a, b, p, now)
  {
    ActiveOfMerged(clock, a, b, p, now);
    if p !in a.Keys + b.Keys {
      NoKeys(MergedSlots(clock, a, b, p, now));
    }
  }

  lemma {:induction false} NothingToMerge(clock: Clock, a: Json, b: Json, m: string, now: real)
    requires m !in Fields(a).Keys + Fields(b).Keys
    ensures MergedProfiles(clock, a, b, m, now) == map[]
  {
    NoKeys(MergedProfiles(clock, a, b, m, now));
  }

  lemma {:induction false} ProfilesOfMergedFeedback(clock: Clock, a: Json, b: Json, m: string, now: real)
    ensures ProfilesOf(Fields(MergeFeedback(clock, a, b, now)), m) == MergedProfiles(clock, a, b, m, now)
  {
    var merged, profiles := MergeFeedback(clock, a, b, now).fields, MergedProfiles(clock, a, b, m, now);
    if m !in Fields(a).Keys + Fields(b).Keys {
      NothingToMerge(clock, a, b, m, now);
      assert m !in merged;
    } else if profiles == map[] {
      assert m !in merged;
    } else {
      assert merged[m] == Obj(profiles);
    }
  }

  /** Under every key the merge holds the active slot of greatest revision, the stored one on a tie. */
  lemma {:induction false} FeedbackKeepsNewest(clock: Clock, a: Json, b: Json, now: real, m: string, p: string,
                                               s: string)
    ensures SlotAt(clock, MergeFeedback(clock, a, b, now), m, p, s, now) ==
            NewestSlot(SlotAt(clock, a, m, p, s, now), SlotAt(clock, b, m, p, s, now))
  {
    ProfilesOfMergedFeedback(clock, a, b, m, now);
    SlotsOfMergedProfiles(clock, ProfilesOf(Fields(a), m), ProfilesOf(Fields(b), m), p, now);
  }

  /** The slot under three keys, as it stands in the ledger, active or not. */
  function SlotIn(h: Json, m: string, p: string, s: string): Json {
    h.Get(m).Get(p).Get("event_slots").Get(s)
  }

  /** It is an object whose expiry date is later than now. */
  predicate ExpiresAfter(clock: Clock, row: Json, now: real) {
    var expires := row.Get("expires_at");
    expires.Str? && expires.s != "" && clock.parse(expires.s).Some? && clock.parse(expires.s).value > now
  }

  lemma {:induction false} SlotAtExactly(clock: Clock, h: Json, m: string, p: string, s: string, now: real)
    ensures SlotAt(clock, h, m, p, s, now) ==
            if ExpiresAfter(clock, SlotIn(h, m, p, s), now) then Some(SlotIn(h, m, p, s)) else None
  {
    var profiles := ProfilesOf(Fields(h), m);
    var ledger := if p in profiles then profiles[p] else Null;
    assert Obj(profiles).Get(p) == ledger && h.Get(m).Get(p) == ledger;
    var slots := Fields(ledger.Get("event_slots"));
    assert SlotIn(h, m, p, s) == if s in slots then slots[s] else Null;
  }

  /** The number of a revision, which starts at one. */
  predicate HasRevision(row: Json, n: int) {
    row.Get("revision") == Int(n) && n >= 1
  }

  /** The incoming row is the newer one: it has a revision, and the stored one has none or a smaller one. */
  ghost predicate IsNewer(current: Json, incoming: Json) {
    exists n :: HasRevision(incoming, n) && forall m :: HasRevision(current, m) ==> n > m
  }

  /** A merged slot is the only active one of the two, or the incoming one when it is newer, or the stored one. */
  lemma {:induction false} MergedSlotExactly(clock: Clock, a: Json, b: Json, now: real, m: string, p: string, s: string)
    ensures var x, y := SlotIn(a, m, p, s), SlotIn(b, m, p, s);
            SlotAt(clock, MergeFeedback(clock, a, b, now), m, p, s, now) ==
            if !ExpiresAfter(clock, x, now) && !ExpiresAfter(clock, y, now) then None
            else if !ExpiresAfter(clock, x, now) then Some(y)
            else if !ExpiresAfter(clock, y, now) then Some(x)
            else if IsNewer(x, y) then Some(y) else Some(x)
  {
    var x, y := SlotIn(a, m, p, s), SlotIn(b, m, p, s);
    FeedbackKeepsNewest(clock, a, b, now, m, p, s);
    SlotAtExactly(clock, a, m, p, s, now);
    SlotAtExactly(clock, b, m, p, s, now);
    NewerExactly(x, y);
  }

  lemma {:induction false} RevisionExactly(row: Json)
    ensures match Revision(row)
            case Some(n) => forall m :: HasRevision(row, m) <==> m == n
            case None => forall m :: !HasRevision(row, m)
  {
  }

  lemma {:induction false} NewerExactly(current: Json, incoming: Json)
    ensures Newest(current, incoming) == if IsNewer(current, incoming) then incoming else current
  {
    RevisionExactly(current);
    RevisionExactly(incoming);
    var c, i := Revision(current), Revision(incoming);
    if i.Some? {
      assert HasRevision(incoming, i.value);
      if c.Some? {
        assert HasRevision(current, c.value);
      }
    }
  }

  /** What a merge produces: active slots only, and no empty profile or model. */
  ghost predicate Canonical(clock: Clock, h: Json, now: real) {
    && h.Obj?
    && forall m :: m in h.fields ==> CanonicalModel(clock, h.fields[m], now)
  }

  ghost predicate CanonicalModel(clock: Clock, model: Json, now: real) {
    && model.Obj? && model.fields != map[]
    && forall p :: p in model.fields ==> CanonicalLedger(clock, model.fields[p], now)
  }

  ghost predicate CanonicalLedger(clock: Clock, ledger: Json, now: real) {
    var slots := ActiveSlots(clock, ledger, now);
    slots != map[] && ledger == Ledger(slots)
  }

  lemma {:induction false} MergedIsCanonical(clock: Clock, a: Json, b: Json, now: real)
    ensures Canonical(clock, MergeFeedback(clock, a, b, now), now)
  {
    var r := MergeFeedback(clock, a, b, now);
    forall m | m in r.fields ensures CanonicalModel(clock, r.fields[m], now) {
      var x, y := ProfilesOf(Fields(a), m), ProfilesOf(Fields(b), m);
      forall p | p in r.fields[m].fields ensures CanonicalLedger(clock, r.fields[m].fields[p], now) {
        ActiveOfMerged(clock, x, y, p, now);
      }
    }
  }

  lemma {:induction false} SameModel(clock: Clock, a: Json, b: Json, now: real, p: string)
    requires CanonicalModel(clock, a, now) && CanonicalModel(clock, b, now)
    requires SlotsOf(clock, a.fields, p, now) == SlotsOf(clock, b.fields, p, now)
    ensures p in a.fields <==> p in b.fields
    ensures p in a.fields ==> a.fields[p] == b.fields[p]
  {
    assert p in a.fields ==> CanonicalLedger(clock, a.fields[p], now);
    assert p in b.fields ==> CanonicalLedger(clock, b.fields[p], now);
  }

  lemma {:induction false} SameSlots(clock: Clock, a: Json, b: Json, now: real, m: string, p: string)
    requires forall s :: SlotAt(clock, a, m, p, s, now) == SlotAt(clock, b, m, p, s, now)
    ensures SlotsOf(clock, ProfilesOf(Fields(a), m), p, now) == SlotsOf(clock, ProfilesOf(Fields(b), m), p, now)
  {
    var u, v := SlotsOf(clock, ProfilesOf(Fields(a), m), p, now), SlotsOf(clock, ProfilesOf(Fields(b), m), p, now);
    forall s ensures s in u <==> s in v {
      assert SlotAt(clock, a, m, p, s, now) == SlotAt(clock, b, m, p, s, now);
    }
    forall s | s in u ensures u[s] == v[s] {
      assert SlotAt(clock, a, m, p, s, now) == SlotAt(clock, b, m, p, s, now);
    }
  }

  /** A model that is there has a profile with an active slot. */
  lemma {:induction false} CanonicalModelHasSlots(clock: Clock, h: Json, now: real, m: string) returns (p: string)
    requires Canonical(clock, h, now) && m in h.fields
    ensures SlotsOf(clock, ProfilesOf(Fields(h), m), p, now) != map[]
  {
    var profiles := h.fields[m].fields;
    assert CanonicalModel(clock, h.fields[m], now);
    if forall q :: q !in profiles {
      NoKeys(profiles);
    }
    p :| p in profiles;
    assert CanonicalLedger(clock, profiles[p], now);
  }

  /** A merged history is determined by its active slots. */
  lemma {:induction false} SameFeedback(clock: Clock, a: Json, b: Json, now: real)
    requires Canonical(clock, a, now) && Canonical(clock, b, now)
    requires forall m, p, s :: SlotAt(clock, a, m, p, s, now) == SlotAt(clock, b, m, p, s, now)
    ensures a == b
  {
    forall m ensures SameAt(a.fields, b.fields, m) {
      SameModels(clock, a, b, now, m);
      SameModels(clock, b, a, now, m);
    }
    SameMaps(a.fields, b.fields);
  }

  ghost predicate SameAt(x: map<string, Json>, y: map<string, Json>, k: string) {
    (k in x <==> k in y) && (k in x ==> x[k] == y[k])
  }

  lemma {:induction false} SameMaps(x: map<string, Json>, y: map<string, Json>)
    requires forall k :: SameAt(x, y, k)
    ensures x == y
  {
    forall k ensures k in x <==> k in y {
      assert SameAt(x, y, k);
    }
    forall k | k in x ensures x[k] == y[k] {
      assert SameAt(x, y, k);
    }
  }

  lemma {:induction false} SameModels(clock: Clock, a: Json, b: Json, now: real, m: string)
    requires Canonical(clock, a, now) && Canonical(clock, b, now)
    requires forall p, s :: SlotAt(clock, a, m, p, s, now) == SlotAt(clock, b, m, p, s, now)
    ensures m in a.fields ==> m in b.fields && a.fields[m] == b.fields[m]
  {
    if m in a.fields {
      var q := CanonicalModelHasSlots(clock, a, now, m);
      SameSlots(clock, a, b, now, m, q);
      assert m in b.fields;
      var x, y := a.fields[m], b.fields[m];
      assert CanonicalModel(clock, x, now) && CanonicalModel(clock, y, now);
      forall p ensures SameAt(x.fields, y.fields, p) {
        SameSlots(clock, a, b, now, m, p);
        SameModel(clock, x, y, now, p);
      }
      SameMaps(x.fields, y.fields);
    }
  }

  lemma {:induction false} NewestIsAssociative(a: Option<Json>, b: Option<Json>, c: Option<Json>)
    ensures NewestSlot(NewestSlot(a, b), c) == NewestSlot(a, NewestSlot(b, c))
  {
  }

  lemma {:induction false} FeedbackIsAssociative(clock: Clock, a: Json, b: Json, c: Json, now: real)
    ensures MergeFeedback(clock, MergeFeedback(clock, a, b, now), c, now) ==
            MergeFeedback(clock, a, MergeFeedback(clock, b, c, now), now)
  {
    var ab, bc := MergeFeedback(clock, a, b, now), MergeFeedback(clock, b, c, now);
    var x, y := MergeFeedback(clock, ab, c, now), MergeFeedback(clock, a, bc, now);
    forall m, p, s ensures SlotAt(clock, x, m, p, s, now) == SlotAt(clock, y, m, p, s, now) {
      FeedbackKeepsNewest(clock, a, b, now, m, p, s);
      FeedbackKeepsNewest(clock, b, c, now, m, p, s);
      FeedbackKeepsNewest(clock, ab, c, now, m, p, s);
      FeedbackKeepsNewest(clock, a, bc, now, m, p, s);
      NewestIsAssociative(SlotAt(clock, a, m, p, s, now), SlotAt(clock, b, m, p, s, now),
                          SlotAt(clock, c, m, p, s, now));
    }
    MergedIsCanonical(clock, ab, c, now);
    MergedIsCanonical(clock, a, bc, now);
    SameFeedback(clock, x, y, now);
  }

  /** On its own output the merge is idempotent. */
  lemma {:induction false} FeedbackIsIdempotent(clock: Clock, a: Json, b: Json, now: real)
    ensures var h := MergeFeedback(clock, a, b, now); MergeFeedback(clock, h, h, now) == h
  {
    var h := MergeFeedback(clock, a, b, now);
    forall m, p, s ensures SlotAt(clock, MergeFeedback(clock, h, h, now), m, p, s, now) ==
        SlotAt(clock, h, m, p, s, now) {
      FeedbackKeepsNewest(clock, h, h, now, m, p, s);
    }
    MergedIsCanonical(clock, a, b, now);
    MergedIsCanonical(clock, h, h, now);
    SameFeedback(clock, MergeFeedback(clock, h, h, now), h, now);
  }

  // ---------------------------------------------------------------------------------------------
  // merge_runtime_state_for_write, StateStore.write and StateStore.update
  // ---------------------------------------------------------------------------------------------

  const RESULTS := "benchmark_results"
  const CAPABILITIES := "verified_capabilities"
  const FEEDBACK := "quality_feedback"

  lemma {:induction false} KeysDiffer()
    ensures RESULTS != CAPABILITIES && RESULTS != FEEDBACK && CAPABILITIES != FEEDBACK
  {
    assert RESULTS[0] == 'b' && CAPABILITIES[0] == 'v' && FEEDBACK[0] == 'q';
  }

  /** One history key of the state that is about to be written. */
  function WithEvidence(clock: Clock, current: Json, incoming: Json, merged: map<string, Json>,
                        key: string): map<string, Json> {
    if !current.Get(key).Obj? then merged
    else if incoming.Get(key).Obj? then merged[key := Merge(clock, current.Get(key), incoming.Get(key))]
    else merged[key := current.Get(key)]
  }

  /** Set when there is feedback, and removed when there is none left. */
  function SetOrDrop(merged: map<string, Json>, combined: Json): map<string, Json> {
    if Fields(combined) != map[] then merged[FEEDBACK := combined] else merged - {FEEDBACK}
  }

  lemma {:induction false} SetOrDropAt(merged: map<string, Json>, combined: Json, key: string)
    requires combined.Obj?
    ensures Obj(SetOrDrop(merged, combined)).Get(key) ==
            if key != FEEDBACK then Obj(merged).Get(key)
            else if combined.fields == map[] then Null else combined
  {
  }

  function WithFeedback(clock: Clock, current: Json, incoming: Json, merged: map<string, Json>,
                        now: real): map<string, Json> {
    SetOrDrop(merged, MergeFeedback(clock, current.Get(FEEDBACK), incoming.Get(FEEDBACK), now))
  }

  function MergeForWrite(clock: Clock, current: Json, incoming: Json, now: real): Json
    requires incoming.Obj?
  {
    if !current.Obj? then incoming
    else
      var first := WithEvidence(clock, current, incoming, incoming.fields, RESULTS);
      var second := WithEvidence(clock, current, incoming, first, CAPABILITIES);
      Obj(WithFeedback(clock, current, incoming, second, now))
  }

  /** What a writer leaves of one stored history. */
  function Written(clock: Clock, current: Json, incoming: Json): Json {
    if !current.Obj? then incoming
    else if incoming.Obj? then Merge(clock, current, incoming)
    else current
  }

  lemma {:induction false} EvidenceAt(clock: Clock, current: Json, incoming: Json, merged: map<string, Json>,
                                      written: string, key: string)
    requires incoming.Obj?
    ensures Obj(WithEvidence(clock, current, incoming, merged, written)).Get(key) ==
            if key == written && current.Get(key).Obj? then Written(clock, current.Get(key), incoming.Get(key))
            else Obj(merged).Get(key)
  {
  }

  lemma {:induction false} FeedbackAt(clock: Clock, current: Json, incoming: Json, merged: map<string, Json>,
                                      now: real, key: string)
    requires incoming.Obj?
    ensures key != FEEDBACK ==>
              Obj(WithFeedback(clock, current, incoming, merged, now)).Get(key) == Obj(merged).Get(key)
    ensures var combined := MergeFeedback(clock, current.Get(FEEDBACK), incoming.Get(FEEDBACK), now);
            Obj(WithFeedback(clock, current, incoming, merged, now)).Get(FEEDBACK) ==
            if combined.fields == map[] then Null else combined
  {
    var combined := MergeFeedback(clock, current.Get(FEEDBACK), incoming.Get(FEEDBACK), now);
    SetOrDropAt(merged, combined, key);
    SetOrDropAt(merged, combined, FEEDBACK);
  }

  /** A write merges the two evidence histories and the feedback, and replaces everything else. */
  lemma {:induction false} WriteMergesHistories(clock: Clock, current: Json, incoming: Json, now: real, key: string)
    requires current.Obj? && incoming.Obj?
    ensures MergeForWrite(clock, current, incoming, now).Obj?
    ensures MergeForWrite(clock, current, incoming, now).Get(key) ==
            if key == "benchmark_results" || key == "verified_capabilities" then
              Written(clock, current.Get(key), incoming.Get(key))
            else if key == "quality_feedback" then
              var combined := MergeFeedback(clock, current.Get(key), incoming.Get(key), now);
              if combined.fields == map[] then Null else combined
            else incoming.Get(key)
  {
    KeysDiffer();
    var first := WithEvidence(clock, current, incoming, incoming.fields, RESULTS);
    var second := WithEvidence(clock, current, incoming, first, CAPABILITIES);
    EvidenceAt(clock, current, incoming, incoming.fields, RESULTS, key);
    EvidenceAt(clock, current, incoming, first, CAPABILITIES, key);
    FeedbackAt(clock, current, incoming, second, now, key);
  }

  /** Each stored slot that is active stays unless the writer's is newer; the writer's active slots are added. */
  lemma {:induction false} WriteKeepsActiveFeedback(clock: Clock, current: Json, incoming: Json, now: real, m: string,
                                                    p: string, s: string)
    requires current.Obj? && incoming.Obj?
    ensures SlotAt(clock, MergeForWrite(clock, current, incoming, now).Get(FEEDBACK), m, p, s, now) ==
            NewestSlot(SlotAt(clock, current.Get(FEEDBACK), m, p, s, now),
                       SlotAt(clock, incoming.Get(FEEDBACK), m, p, s, now))
  {
    KeysDiffer();
    WriteMergesHistories(clock, current, incoming, now, FEEDBACK);
    var a, b := current.Get(FEEDBACK), incoming.Get(FEEDBACK);
    FeedbackKeepsNewest(clock, a, b, now, m, p, s);
    if MergeFeedback(clock, a, b, now).fields == map[] {
      assert Fields(MergeFeedback(clock, a, b, now)) == Fields(Null);
    }
  }

  /** A mutator edits the copy it is handed and returns an object of its own, or something else to keep its edits. */
  datatype Mutator = Mutator(edit: map<string, Json> -> map<string, Json>, give: map<string, Json> -> Json)

  datatype Call =
    | WriteCall(state: map<string, Json>, at: real)
    | UpdateCall(mutator: Mutator, at: real)

  /** The state that a call wants to be stored, given what is stored. */
  function Wanted(current: Json, call: Call): (wanted: Json)
    ensures wanted.Obj?
  {
    match call
    case WriteCall(state, _) => Obj(state)
    case UpdateCall(mutator, _) =>
      var start := Fields(current);
      if mutator.give(start).Obj? then mutator.give(start) else Obj(mutator.edit(start))
  }

  function AfterCall(clock: Clock, stored: Json, call: Call): Json {
    MergeForWrite(clock, stored, Wanted(stored, call), call.at)
  }

  function AfterCalls(clock: Clock, stored: Json, calls: seq<Call>): Json
    decreases |calls|
  {
    if calls == [] then stored else AfterCalls(clock, AfterCall(clock, stored, calls[0]), calls[1..])
  }

  /** The call hands in no model entry that carries a stamp of its own. */
  ghost predicate CarefulCall(clock: Clock, stored: Json, call: Call, key: string) {
    var wanted := Wanted(stored, call).Get(key);
    wanted.Obj? ==> NoStampedModel(clock, wanted)
  }

  ghost predicate Careful(clock: Clock, stored: Json, calls: seq<Call>, key: string)
    decreases |calls|
  {
    calls == [] ||
    (CarefulCall(clock, stored, calls[0], key) && Careful(clock, AfterCall(clock, stored, calls[0]), calls[1..], key))
  }

  lemma {:induction false} CallUndoesNothing(clock: Clock, stored: Json, call: Call, key: string)
    requires (key == RESULTS || key == CAPABILITIES) && stored.Obj? && CarefulCall(clock, stored, call, key)
    ensures AfterCall(clock, stored, call).Obj?
    ensures NothingUndone(clock, stored.Get(key), AfterCall(clock, stored, call).Get(key))
  {
    var wanted := Wanted(stored, call);
    WriteMergesHistories(clock, stored, wanted, call.at, key);
    WrittenUndoesNothing(clock, stored.Get(key), wanted.Get(key));
  }

  lemma {:induction false} WrittenUndoesNothing(clock: Clock, current: Json, incoming: Json)
    requires incoming.Obj? ==> NoStampedModel(clock, incoming)
    ensures NothingUndone(clock, current, Written(clock, current, incoming))
  {
    if current.Obj? && incoming.Obj? {
      UndoesNothing(clock, current, incoming);
    }
  }

  /** Over any sequence of writes and updates no dated row disappears or goes back in time. */
  lemma {:induction false} CallsUndoNothing(clock: Clock, stored: Json, calls: seq<Call>, key: string)
    requires (key == RESULTS || key == CAPABILITIES) && stored.Obj? && Careful(clock, stored, calls, key)
    ensures NothingUndone(clock, stored.Get(key), AfterCalls(clock, stored, calls).Get(key))
    decreases |calls|
  {
    if calls != [] {
      var next := AfterCall(clock, stored, calls[0]);
      CallUndoesNothing(clock, stored, calls[0], key);
      CallsUndoNothing(clock, next, calls[1..], key);
      NothingUndoneTwice(clock, stored.Get(key), next.Get(key), AfterCalls(clock, next, calls[1..]).Get(key));
    }
  }

  /** The state file, under its lock. */
  class StateStore {
    const clock: Clock
    var stored: Json
    var lastUpdateReason: Option<string>

    constructor (clock: Clock, stored: Json)
      ensures this.clock == clock && this.stored == stored && lastUpdateReason == None
    {
      this.clock := clock;
      this.stored := stored;
      lastUpdateReason := None;
    }

    method MergeEvidence(incoming: map<string, Json>, merged: map<string, Json>, key: string)
      returns (result: map<string, Json>)
      ensures result == WithEvidence(clock, stored, Obj(incoming), merged, key)
    {
      var currentValue, incomingValue := stored.Get(key), Obj(incoming).Get(key);
      result := merged;
      if currentValue.Obj? {
        if incomingValue.Obj? {
          var rows := MergeRuntimeHistoryRows(clock, currentValue, incomingValue);
          result := result[key := rows];
        } else {
          result := result[key := currentValue];
        }
      }
    }

    method MergeStateForWrite(incoming: map<string, Json>, now: real) returns (merged: Json)
      ensures merged == MergeForWrite(clock, stored, Obj(incoming), now)
    {
      if !stored.Obj? {
        return Obj(incoming);
      }
      var fields := MergeEvidence(incoming, incoming, RESULTS);
      fields := MergeEvidence(incoming, fields, CAPABILITIES);
      var combined := MergeFeedback(clock, stored.Get(FEEDBACK), Obj(incoming).Get(FEEDBACK), now);
      if combined.fields != map[] {
        fields := fields[FEEDBACK := combined];
      } else {
        fields := fields - {FEEDBACK};
      }
      return Obj(fields);
    }

    method Write(state: map<string, Json>, now: real)
      modifies this`stored
      ensures stored == AfterCall(clock, old(stored), WriteCall(state, now))
    {
      stored := MergeStateForWrite(state, now);
    }

    method Update(mutator: Mutator, reason: Option<string>, now: real) returns (merged: Json)
      modifies this
      ensures stored == AfterCall(clock, old(stored), UpdateCall(mutator, now))
      ensures merged == stored && lastUpdateReason == reason
    {
      var state := Fields(stored);
      var updated := mutator.give(state);
      var next := if updated.Obj? then updated.fields else mutator.edit(state);
      merged := MergeStateForWrite(next, now);
      stored := merged;
      lastUpdateReason := reason;
    }
  }
}
