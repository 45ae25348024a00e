/**
 * Selected points: the point-index to point-number map of transformed
 * traces (`makePtIndex2PtNumber`), tagging the selected calcdata items
 * (`tagSelected`) and translating selected indices into point numbers
 * (`selIndices2selPoints`).
 */
module Selection {
  import opened JsValue
  import Helpers

  /** `trace._indexToPoints`: for each point number (the object's key, in
      iteration order) the input indices it was built from. */
  type IndexToPoints = seq<(nat, seq<nat>)>

  /** `ptIndex2ptNumber[p] = k` for every `p` of `pts`, in order. */
  function AssignAll(m: map<nat, nat>, pts: seq<nat>, k: nat): map<nat, nat>
  {
    if pts == [] then m
    else
      var n := |pts| - 1;
      AssignAll(m, pts[..n], k)[pts[n] := k]
  }

  /** The map built by `makePtIndex2PtNumber`. */
  function PtMap(entries: IndexToPoints): map<nat, nat>
  {
    if entries == [] then map[]
    else
      var n := |entries| - 1;
      AssignAll(PtMap(entries[..n]), entries[n].1, entries[n].0)
  }

  lemma {:induction false} AssignAllValues(m: map<nat, nat>, pts: seq<nat>, k: nat)
    ensures forall p :: p in pts ==> p in AssignAll(m, pts, k) && AssignAll(m, pts, k)[p] == k
    ensures forall p :: p !in pts ==>
              (p in AssignAll(m, pts, k) <==> p in m) &&
              (p in m ==> AssignAll(m, pts, k)[p] == m[p])
  {
    if pts != [] {
      var n := |pts| - 1;
      AssignAllValues(m, pts[..n], k);
      assert pts == pts[..n] + [pts[n]];
    }
  }

  /** A point index is mapped exactly when some entry lists it, and it is
      mapped to the number of the LAST entry that lists it. */
  lemma PtMapLastWins(entries: IndexToPoints, p: nat)
    ensures p in PtMap(entries) <==> exists i :: 0 <= i < |entries| && p in entries[i].1
    ensures forall i :: 0 <= i < |entries| && p in entries[i].1 &&
                        (forall i2 :: i < i2 < |entries| ==> p !in entries[i2].1) ==>
              p in PtMap(entries) && PtMap(entries)[p] == entries[i].0
  {
    if p in PtMap(entries) {
      PtMapListed(entries, p);
    }
    forall i | 0 <= i < |entries| && p in entries[i].1
      ensures p in PtMap(entries)
    {
      PtMapHas(entries, p, i);
    }
    forall i | 0 <= i < |entries| && p in entries[i].1 &&
               (forall i2 :: i < i2 < |entries| ==> p !in entries[i2].1)
      ensures p in PtMap(entries) && PtMap(entries)[p] == entries[i].0
    {
      PtMapLast(entries, p, i);
    }
  }

  /** A mapped index comes from some entry. */
  lemma {:induction false} PtMapListed(entries: IndexToPoints, p: nat)
    requires p in PtMap(entries)
    ensures exists i :: 0 <= i < |entries| && p in entries[i].1
  {
    var n := |entries| - 1;
    var front := entries[..n];
    AssignAllValues(PtMap(front), entries[n].1, entries[n].0);
    if p !in entries[n].1 {
      PtMapListed(front, p);
      var i :| 0 <= i < |front| && p in front[i].1;
      assert entries[i] == front[i];
    }
  }

  /** An index some entry lists is mapped. */
  lemma {:induction false} PtMapHas(entries: IndexToPoints, p: nat, i: nat)
    requires i < |entries| && p in entries[i].1
    ensures p in PtMap(entries)
  {
    var n := |entries| - 1;
    var front := entries[..n];
    AssignAllValues(PtMap(front), entries[n].1, entries[n].0);
    if i < n {
      assert entries[i] == front[i];
      PtMapHas(front, p, i);
    }
  }

  /** An index goes to the number of the last entry that lists it. */
  lemma {:induction false} PtMapLast(entries: IndexToPoints, p: nat, i: nat)
    requires i < |entries| && p in entries[i].1
    requires forall i2 :: i < i2 < |entries| ==> p !in entries[i2].1
    ensures p in PtMap(entries) && PtMap(entries)[p] == entries[i].0
  {
    var n := |entries| - 1;
    var front := entries[..n];
    AssignAllValues(PtMap(front), entries[n].1, entries[n].0);
    if i < n {
      assert entries[i] == front[i];
      assert p !in entries[n].1;
      forall i2 | i < i2 < |front|
        ensures p !in front[i2].1
      {
        assert front[i2] == entries[i2];
      }
      PtMapLast(front, p, i);
    }
  }

  /** `makePtIndex2PtNumber(indexToPoints)`. */
  method MakePtIndex2PtNumber(indexToPoints: IndexToPoints) returns (m: map<nat, nat>)
    ensures m == PtMap(indexToPoints)
  {
    m := map[];
    var i := 0;
    while i < |indexToPoints|
      invariant 0 <= i <= |indexToPoints|
      invariant m == PtMap(indexToPoints[..i])
    {
      var k := indexToPoints[i].0;
      var pts := indexToPoints[i].1;
      ghost var before := m;
      var j := 0;
      while j < |pts|
        invariant 0 <= j <= |pts|
        invariant m == AssignAll(before, pts[..j], k)
      {
        assert pts[..j + 1][..j] == pts[..j];
        m := m[pts[j] := k];
        j := j + 1;
      }
      assert pts[..j] == pts;
      assert indexToPoints[..i + 1][..i] == indexToPoints[..i];
      i := i + 1;
    }
    assert indexToPoints[..i] == indexToPoints;
  }

  /** A selected point's input index: `isIndex(ptIndex)` and its value. */
  function PointIndex(v: Value): Option<nat>
  {
    if Helpers.IsIndex(v, None) then Some(Helpers.NumericValue(v).value as nat) else None
  }

  /** The calcdata index `tagSelected` computes for a selected entry, when
      it passes `isCdIndexValid`: the point index, through the
      index-to-number map if the trace has one, through
      `ptNumber2cdIndex` if given; a missing key is `undefined`. */
  function CdIndex(v: Value, ptIndex2ptNumber: Option<map<nat, nat>>,
                   ptNumber2cdIndex: Option<map<nat, nat>>, len: nat): (r: Option<nat>)
    ensures r.Some? ==> r.value < len && PointIndex(v).Some?
  {
    match PointIndex(v)
    case None => None
    case Some(ptIndex) =>
      var ptNumber := if ptIndex2ptNumber.None? then Some(ptIndex)
                      else if ptIndex in ptIndex2ptNumber.value then Some(ptIndex2ptNumber.value[ptIndex])
                      else None;
      var cdIndex := if ptNumber.None? then None
                     else if ptNumber2cdIndex.None? then ptNumber
                     else if ptNumber.value in ptNumber2cdIndex.value then Some(ptNumber2cdIndex.value[ptNumber.value])
                     else None;
      if cdIndex.Some? && cdIndex.value < len then cdIndex else None
  }

  /** The calcdata indices that `tagSelected` marks. */
  function Targets(selected: seq<Value>, ptIndex2ptNumber: Option<map<nat, nat>>,
                   ptNumber2cdIndex: Option<map<nat, nat>>, len: nat): set<nat>
  {
    if selected == [] then {}
    else
      var n := |selected| - 1;
      var c := CdIndex(selected[n], ptIndex2ptNumber, ptNumber2cdIndex, len);
      Targets(selected[..n], ptIndex2ptNumber, ptNumber2cdIndex, len) + (if c.Some? then {c.value} else {})
  }

  /** An index is a target exactly when some selected entry leads to it. */
  lemma {:induction false} TargetsIff(selected: seq<Value>, ptIndex2ptNumber: Option<map<nat, nat>>,
                                      ptNumber2cdIndex: Option<map<nat, nat>>, len: nat, c: nat)
    ensures c in Targets(selected, ptIndex2ptNumber, ptNumber2cdIndex, len) <==>
            exists i :: 0 <= i < |selected| && CdIndex(selected[i], ptIndex2ptNumber, ptNumber2cdIndex, len) == Some(c)
  {
    if selected != [] {
      var n := |selected| - 1;
      var front := selected[..n];
      TargetsIff(front, ptIndex2ptNumber, ptNumber2cdIndex, len, c);
      if c in Targets(front, ptIndex2ptNumber, ptNumber2cdIndex, len) {
        var i :| 0 <= i < |front| && CdIndex(front[i], ptIndex2ptNumber, ptNumber2cdIndex, len) == Some(c);
        assert selected[i] == front[i];
      }
      forall i | 0 <= i < n && CdIndex(selected[i], ptIndex2ptNumber, ptNumber2cdIndex, len) == Some(c)
        ensures c in Targets(front, ptIndex2ptNumber, ptNumber2cdIndex, len)
      {
        assert selected[i] == front[i];
      }
    }
  }

  /** Every target is a valid calcdata index. */
  lemma {:induction false} TargetsInRange(selected: seq<Value>, ptIndex2ptNumber: Option<map<nat, nat>>,
                                          ptNumber2cdIndex: Option<map<nat, nat>>, len: nat)
    ensures forall c :: c in Targets(selected, ptIndex2ptNumber, ptNumber2cdIndex, len) ==> c < len
  {
    if selected != [] {
      TargetsInRange(selected[..|selected| - 1], ptIndex2ptNumber, ptNumber2cdIndex, len);
    }
  }

  /** The items with `selected = 1` set on the targets. */
  function Tagged(items: seq<seq<Field>>, targets: set<nat>): (r: seq<seq<Field>>)
    ensures |r| == |items|
  {
    seq(|items|, c requires 0 <= c < |items| =>
      if c in targets then Put(items[c], "selected", Num(1)) else items[c])
  }

  /** Setting a property to the value it was just given changes nothing. */
  lemma {:induction false} PutTwice(fs: seq<Field>, k: string, v: Value)
    ensures Put(Put(fs, k, v), k, v) == Put(fs, k, v)
  {
    if fs != [] && fs[0].key != k {
      PutTwice(fs[1..], k, v);
    }
  }

  /** Tagging marks the targets with `selected: 1`, leaves every other
      property and item as it was, and tagging again changes nothing. */
  lemma TaggedMarks(items: seq<seq<Field>>, targets: set<nat>)
    ensures forall c :: 0 <= c < |items| && c in targets ==> Get(Tagged(items, targets)[c], "selected") == Num(1)
    ensures forall c, k :: 0 <= c < |items| && k != "selected" ==> Get(Tagged(items, targets)[c], k) == Get(items[c], k)
    ensures forall c :: 0 <= c < |items| && c !in targets ==> Tagged(items, targets)[c] == items[c]
    ensures Tagged(Tagged(items, targets), targets) == Tagged(items, targets)
  {
    forall c | 0 <= c < |items| && c in targets
      ensures Tagged(Tagged(items, targets), targets)[c] == Tagged(items, targets)[c]
    {
      PutTwice(items[c], "selected", Num(1));
    }
  }

  /** `tagSelected(calcTrace, trace, ptNumber2cdIndex)` with
      `trace.selectedpoints` and `trace._indexToPoints` passed in. */
  method TagSelected(calcTrace: array<seq<Field>>, selectedpoints: seq<Value>,
                     indexToPoints: Option<IndexToPoints>, ptNumber2cdIndex: Option<map<nat, nat>>)
    modifies calcTrace
    ensures var ptIndex2ptNumber := if indexToPoints.Some? then Some(PtMap(indexToPoints.value)) else None;
            calcTrace[..] == Tagged(old(calcTrace[..]), Targets(selectedpoints, ptIndex2ptNumber, ptNumber2cdIndex, calcTrace.Length))
  {
    var ptIndex2ptNumber: Option<map<nat, nat>> := None;
    if indexToPoints.Some? {
      var m := MakePtIndex2PtNumber(indexToPoints.value);
      ptIndex2ptNumber := Some(m);
    }
    ghost var items := calcTrace[..];
    var i := 0;
    while i < |selectedpoints|
      invariant 0 <= i <= |selectedpoints|
      invariant calcTrace[..] == Tagged(items, TargetsUpTo(selectedpoints, i, ptIndex2ptNumber, ptNumber2cdIndex, calcTrace.Length))
    {
      ghost var done := TargetsUpTo(selectedpoints, i, ptIndex2ptNumber, ptNumber2cdIndex, calcTrace.Length);
      TargetsStep(selectedpoints, i, ptIndex2ptNumber, ptNumber2cdIndex, calcTrace.Length);
      var cdIndex := CdIndex(selectedpoints[i], ptIndex2ptNumber, ptNumber2cdIndex, calcTrace.Length);
      if cdIndex.Some? {
        var c := cdIndex.value;
        calcTrace[c] := Put(calcTrace[c], "selected", Num(1));
        TagOne(items, done, c);
      }
      i := i + 1;
    }
    assert selectedpoints[..i] == selectedpoints;
  }

  /** `Targets` of the first `i` selected entries, under a name that
      unfolds it only once. */
  function TargetsUpTo(selected: seq<Value>, i: nat, ptIndex2ptNumber: Option<map<nat, nat>>,
                       ptNumber2cdIndex: Option<map<nat, nat>>, len: nat): set<nat>
    requires i <= |selected|
  {
    Targets(selected[..i], ptIndex2ptNumber, ptNumber2cdIndex, len)
  }

  lemma TargetsStep(selected: seq<Value>, i: nat, ptIndex2ptNumber: Option<map<nat, nat>>,
                    ptNumber2cdIndex: Option<map<nat, nat>>, len: nat)
    requires i < |selected|
    ensures var c := CdIndex(selected[i], ptIndex2ptNumber, ptNumber2cdIndex, len);
            TargetsUpTo(selected, i + 1, ptIndex2ptNumber, ptNumber2cdIndex, len) ==
              TargetsUpTo(selected, i, ptIndex2ptNumber, ptNumber2cdIndex, len) + (if c.Some? then {c.value} else {})
  {
    assert selected[..i + 1][..i] == selected[..i];
  }

  /** One more mark on tagged items is tagging with one more target. */
  lemma TagOne(items: seq<seq<Field>>, targets: set<nat>, c: nat)
    requires c < |items|
    ensures Tagged(items, targets)[c := Put(Tagged(items, targets)[c], "selected", Num(1))] == Tagged(items, targets + {c})
  {
    PutTwice(items[c], "selected", Num(1));
  }

  /** The point numbers `selIndices2selPoints` lists for a trace with an
      index-to-points map, in the order of the selection. */
  function SelPoints(selected: seq<Value>, ptIndex2ptNumber: map<nat, nat>): seq<Value>
  {
    if selected == [] then []
    else
      var n := |selected| - 1;
      var p := PointIndex(selected[n]);
      SelPoints(selected[..n], ptIndex2ptNumber) +
      (if p.Some? && p.value in ptIndex2ptNumber then [Num(ptIndex2ptNumber[p.value] as int)] else [])
  }

  /** Selected entry `i` leads to a point number. */
  ghost predicate MapsTo(selected: seq<Value>, ptIndex2ptNumber: map<nat, nat>, i: int, k: nat)
  {
    0 <= i < |selected| && PointIndex(selected[i]).Some? &&
    PointIndex(selected[i]).value in ptIndex2ptNumber &&
    ptIndex2ptNumber[PointIndex(selected[i]).value] == k
  }

  /** The list holds one point number per selected index the map knows,
      and a number is listed exactly when some selected index maps to it. */
  lemma SelPointsIff(selected: seq<Value>, ptIndex2ptNumber: map<nat, nat>)
    ensures |SelPoints(selected, ptIndex2ptNumber)| <= |selected|
    ensures forall v :: v in SelPoints(selected, ptIndex2ptNumber) ==> v.Num? && v.n >= 0
    ensures forall k: nat :: Num(k) in SelPoints(selected, ptIndex2ptNumber) <==>
              exists i :: 0 <= i < |selected| && PointIndex(selected[i]).Some? &&
                          PointIndex(selected[i]).value in ptIndex2ptNumber &&
                          ptIndex2ptNumber[PointIndex(selected[i]).value] == k
  {
    SelPointsShape(selected, ptIndex2ptNumber);
    forall k: nat | Num(k) in SelPoints(selected, ptIndex2ptNumber)
      ensures exists i :: MapsTo(selected, ptIndex2ptNumber, i, k)
    {
      SelPointsListed(selected, ptIndex2ptNumber, k);
    }
    forall k: nat, i | MapsTo(selected, ptIndex2ptNumber, i, k)
      ensures Num(k) in SelPoints(selected, ptIndex2ptNumber)
    {
      SelPointsHas(selected, ptIndex2ptNumber, i, k);
    }
  }

  lemma {:induction false} SelPointsShape(selected: seq<Value>, ptIndex2ptNumber: map<nat, nat>)
    ensures |SelPoints(selected, ptIndex2ptNumber)| <= |selected|
    ensures forall v :: v in SelPoints(selected, ptIndex2ptNumber) ==> v.Num? && v.n >= 0
  {
    if selected != [] {
      SelPointsShape(selected[..|selected| - 1], ptIndex2ptNumber);
    }
  }

  /** A listed number comes from some selected index. */
  lemma {:induction false} SelPointsListed(selected: seq<Value>, ptIndex2ptNumber: map<nat, nat>, k: nat)
    requires Num(k) in SelPoints(selected, ptIndex2ptNumber)
    ensures exists i :: MapsTo(selected, ptIndex2ptNumber, i, k)
  {
    var n := |selected| - 1;
    var front := selected[..n];
    if Num(k) in SelPoints(front, ptIndex2ptNumber) {
      SelPointsListed(front, ptIndex2ptNumber, k);
      var i :| MapsTo(front, ptIndex2ptNumber, i, k);
      assert selected[i] == front[i];
      assert MapsTo(selected, ptIndex2ptNumber, i, k);
    } else {
      assert MapsTo(selected, ptIndex2ptNumber, n, k);
    }
  }

  /** A selected index the map knows has its number listed. */
  lemma {:induction false} SelPointsHas(selected: seq<Value>, ptIndex2ptNumber: map<nat, nat>, i: int, k: nat)
    requires MapsTo(selected, ptIndex2ptNumber, i, k)
    ensures Num(k) in SelPoints(selected, ptIndex2ptNumber)
  {
    var n := |selected| - 1;
    var front := selected[..n];
    if i < n {
      assert selected[i] == front[i];
      assert MapsTo(front, ptIndex2ptNumber, i, k);
      SelPointsHas(front, ptIndex2ptNumber, i, k);
    }
  }

  /** `selIndices2selPoints(trace)` with `trace.selectedpoints` and
      `trace._indexToPoints` passed in; without a map the selection comes
      back as it is. */
  method SelIndices2SelPoints(selectedpoints: seq<Value>, indexToPoints: Option<IndexToPoints>) returns (out: seq<Value>)
    ensures indexToPoints.None? ==> out == selectedpoints
    ensures indexToPoints.Some? ==> out == SelPoints(selectedpoints, PtMap(indexToPoints.value))
  {
    if indexToPoints.None? {
      return selectedpoints;
    }
    var ptIndex2ptNumber := MakePtIndex2PtNumber(indexToPoints.value);
    out := [];
    var i := 0;
    while i < |selectedpoints|
      invariant 0 <= i <= |selectedpoints|
      invariant out == SelPoints(selectedpoints[..i], ptIndex2ptNumber)
    {
      assert selectedpoints[..i + 1][..i] == selectedpoints[..i];
      var ptIndex := PointIndex(selectedpoints[i]);
      if ptIndex.Some? && ptIndex.value in ptIndex2ptNumber {
        var ptNumber := ptIndex2ptNumber[ptIndex.value];
        out := out + [Num(ptNumber as int)];
      }
      i := i + 1;
    }
    assert selectedpoints[..i] == selectedpoints;
  }

  /** For a trace whose point numbers are its calcdata indices, the items
      `tagSelected` marks are exactly the listed point numbers that fall
      inside the calcdata. */
  lemma TagSelectedMatchesSelPoints(selected: seq<Value>, entries: IndexToPoints, len: nat, c: nat)
    ensures c in Targets(selected, Some(PtMap(entries)), None, len) <==>
            c < len && Num(c) in SelPoints(selected, PtMap(entries))
  {
    TargetsIff(selected, Some(PtMap(entries)), None, len, c);
    SelPointsIff(selected, PtMap(entries));
  }
}
