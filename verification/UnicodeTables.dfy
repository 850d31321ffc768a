/**
 The generator of the Unicode normalisation tables: one flat table of canonical mappings
 with offsets into it, the composition pairs, and the vector literals they are written as.
 */
module UnicodeTables {
  import opened Wrappers
  import opened Text

  /** A code point and its canonical decomposition. */
  datatype Decomp = Decomp(cp: int, mapping: seq<int>)

  // --- The decomposition table --------------------------------------------------------------

  function Flattened(ds: seq<Decomp>): seq<int> {
    if ds == [] then [] else Flattened(ds[..|ds| - 1]) + ds[|ds| - 1].mapping
  }

  /** Slicing the data between neighbouring offsets gives every mapping back. */
  ghost predicate Describes(offsets: seq<nat>, data: seq<int>, ds: seq<Decomp>) {
    && |offsets| == |ds| + 1 && offsets[0] == 0 && offsets[|ds|] == |data|
    && (forall i, j :: 0 <= i <= j < |offsets| ==> offsets[i] <= offsets[j] <= |data|)
    && (forall i :: 0 <= i < |ds| ==> data[offsets[i]..offsets[i + 1]] == ds[i].mapping)
  }

  method DecompTables(ds: seq<Decomp>) returns (cps: seq<int>, offsets: seq<nat>, data: seq<int>)
    ensures |cps| == |ds| && forall i :: 0 <= i < |ds| ==> cps[i] == ds[i].cp
    ensures Describes(offsets, data, ds) && data == Flattened(ds)
  {
    cps := seq(|ds|, i requires 0 <= i < |ds| => ds[i].cp);
    offsets := [];
    var offset := 0;
    for i := 0 to |ds|
      invariant offset == |Flattened(ds[..i])| && |offsets| == i
      invariant forall j :: 0 <= j < i ==> offsets[j] == |Flattened(ds[..j])|
    {
      assert ds[..i + 1][..i] == ds[..i];
      offsets := offsets + [offset];
      offset := offset + |ds[i].mapping|;
    }
    offsets := offsets + [offset];
    assert ds[..|ds|] == ds;
    data := FlatData(ds);
    OffsetsDescribe(ds, offsets);
  }

  method FlatData(ds: seq<Decomp>) returns (data: seq<int>)
    ensures data == Flattened(ds)
  {
    data := [];
    for i := 0 to |ds|
      invariant data == Flattened(ds[..i])
    {
      assert ds[..i + 1][..i] == ds[..i];
      data := data + ds[i].mapping;
    }
    assert ds[..|ds|] == ds;
  }

  lemma {:induction false} FlattenedPrefix(ds: seq<Decomp>, i: nat, j: nat)
    requires i <= j <= |ds|
    ensures Flattened(ds[..i]) <= Flattened(ds[..j])
    decreases j
  {
    if i < j {
      FlattenedPrefix(ds, i, j - 1);
      assert ds[..j][..j - 1] == ds[..j - 1];
    }
  }

  lemma OffsetsDescribe(ds: seq<Decomp>, offsets: seq<nat>)
    requires |offsets| == |ds| + 1
    requires forall j :: 0 <= j <= |ds| ==> offsets[j] == |Flattened(ds[..j])|
    ensures Describes(offsets, Flattened(ds), ds)
  {
    var data := Flattened(ds);
    assert ds[..|ds|] == ds;
    forall i, j | 0 <= i <= j < |offsets|
      ensures offsets[i] <= offsets[j] <= |data|
    {
      FlattenedPrefix(ds, i, j);
      FlattenedPrefix(ds, j, |ds|);
    }
    forall i | 0 <= i < |ds|
      ensures data[offsets[i]..offsets[i + 1]] == ds[i].mapping
    {
      FlattenedPrefix(ds, i, i + 1);
      FlattenedPrefix(ds, i + 1, |ds|);
      assert ds[..i + 1][..i] == ds[..i];
      var upTo := Flattened(ds[..i + 1]);
      assert upTo == Flattened(ds[..i]) + ds[i].mapping;
      assert data[..|upTo|] == upTo;
      assert data[offsets[i]..offsets[i + 1]] == upTo[offsets[i]..];
    }
  }

  // --- Composition pairs ------------------------------------------------------------------------

  /** The two parts and what they compose to. */
  datatype Triple = Triple(first: int, second: int, cp: int)

  predicate Composes(d: Decomp, exclusions: set<int>) {
    |d.mapping| == 2 && d.cp !in exclusions
  }

  /** The mappings that compose, in the order of their code points. */
  function Pairs(ds: seq<Decomp>, exclusions: set<int>): seq<Triple> {
    if ds == [] then []
    else
      var before, d := Pairs(ds[..|ds| - 1], exclusions), ds[|ds| - 1];
      if Composes(d, exclusions) then before + [Triple(d.mapping[0], d.mapping[1], d.cp)] else before
  }

  predicate Before(a: Triple, b: Triple) {
    a.first < b.first || (a.first == b.first && a.second < b.second)
  }

  predicate Sorted(ts: seq<Triple>) {
    forall i, j :: 0 <= i < j < |ts| ==> !Before(ts[j], ts[i])
  }

  /** By the first part, and where that is the same by the second. */
  lemma SortedByParts(ts: seq<Triple>, i: nat, j: nat)
    requires Sorted(ts) && i < j < |ts|
    ensures ts[i].first < ts[j].first || (ts[i].first == ts[j].first && ts[i].second <= ts[j].second)
  {
    assert !Before(ts[j], ts[i]);
  }

  method Insert(ts: seq<Triple>, t: Triple) returns (r: seq<Triple>)
    requires Sorted(ts)
    ensures Sorted(r) && multiset(r) == multiset(ts) + multiset{t}
  {
    var i := |ts|;
    while i > 0 && Before(t, ts[i - 1])
      invariant 0 <= i <= |ts| && forall j :: i <= j < |ts| ==> Before(t, ts[j])
    {
      i := i - 1;
    }
    r := ts[..i] + [t] + ts[i..];
    assert ts == ts[..i] + ts[i..];
    InsertedSorted(ts, t, i);
  }

  lemma InsertedSorted(ts: seq<Triple>, t: Triple, i: nat)
    requires Sorted(ts) && i <= |ts| && (forall j :: i <= j < |ts| ==> Before(t, ts[j]))
    requires i > 0 ==> !Before(t, ts[i - 1])
    ensures Sorted(ts[..i] + [t] + ts[i..])
  {
    forall j | 0 <= j < i
      ensures !Before(t, ts[j])
    {
      assert !Before(ts[i - 1], ts[j]) || j == i - 1;
    }
  }

  /** The order among equal parts is left open, as the sort leaves it. */
  method SortPairs(ts: seq<Triple>) returns (r: seq<Triple>)
    ensures Sorted(r) && multiset(r) == multiset(ts)
  {
    r := [];
    for i := 0 to |ts|
      invariant Sorted(r) && multiset(r) == multiset(ts[..i])
    {
      assert ts[..i + 1] == ts[..i] + [ts[i]];
      r := Insert(r, ts[i]);
    }
    assert ts[..|ts|] == ts;
  }

  method BuildCompositionPairs(ds: seq<Decomp>, exclusions: set<int>) returns (pairs: seq<Triple>)
    ensures Sorted(pairs) && multiset(pairs) == multiset(Pairs(ds, exclusions))
  {
    pairs := [];
    for i := 0 to |ds|
      invariant pairs == Pairs(ds[..i], exclusions)
    {
      assert ds[..i + 1][..i] == ds[..i];
      if |ds[i].mapping| != 2 {
        continue;
      }
      if ds[i].cp in exclusions {
        continue;
      }
      pairs := pairs + [Triple(ds[i].mapping[0], ds[i].mapping[1], ds[i].cp)];
    }
    assert ds[..|ds|] == ds;
    pairs := SortPairs(pairs);
  }

  /** Exactly the two-part mappings that are not excluded. */
  lemma {:induction false} PairsAreMappings(ds: seq<Decomp>, exclusions: set<int>, t: Triple)
    ensures t in Pairs(ds, exclusions)
       <==> exists d :: d in ds && |d.mapping| == 2 && d.cp !in exclusions && t == Triple(d.mapping[0], d.mapping[1], d.cp)
  {
    if ds != [] {
      var before, last := ds[..|ds| - 1], ds[|ds| - 1];
      PairsAreMappings(before, exclusions, t);
      assert ds == before + [last];
    }
  }

  /** No two of them have the same parts. */
  predicate PartsDiffer(ts: seq<Triple>) {
    forall i, j :: 0 <= i < j < |ts| ==> Before(ts[i], ts[j])
  }

  /** Then the table does not depend on how the sort treats equals. */
  lemma {:induction false} OneOrder(a: seq<Triple>, b: seq<Triple>)
    requires PartsDiffer(a) && Sorted(b) && multiset(a) == multiset(b)
    ensures a == b
  {
    SizesAgree(a, b);
    if a != [] {
      LeastFirst(a, b);
      var x := a[0];
      assert a == [x] + a[1..] && b == [x] + b[1..];
      assert multiset(a[1..]) == multiset(a) - multiset{x} == multiset(b[1..]);
      OneOrder(a[1..], b[1..]);
    }
  }

  lemma LeastFirst(a: seq<Triple>, b: seq<Triple>)
    requires a != [] && b != [] && PartsDiffer(a) && Sorted(b) && multiset(a) == multiset(b)
    ensures a[0] == b[0]
  {
    var x, y := a[0], b[0];
    assert y in multiset(b) && x in multiset(a);
    var i :| 0 <= i < |a| && a[i] == y;
    var j :| 0 <= j < |b| && b[j] == x;
  }

  lemma SizesAgree<T>(a: seq<T>, b: seq<T>)
    requires multiset(a) == multiset(b)
    ensures |a| == |b|
  {
    assert |multiset(a)| == |a| && |multiset(b)| == |b|;
  }

  // --- Vector literals -----------------------------------------------------------------------------

  const PER_ROW: nat := 20

  function Item(n: nat): string {
    Decimal(n) + "i32"
  }

  /** The values of one row, separated by a comma and a blank. */
  function Spaced(values: seq<nat>): string {
    if values == [] then ""
    else if |values| == 1 then Item(values[0])
    else Spaced(values[..|values| - 1]) + ", " + Item(values[|values| - 1])
  }

  function RowLength(values: seq<nat>): nat {
    if |values| < PER_ROW then |values| else PER_ROW
  }

  function Rows(values: seq<nat>): string
    decreases |values|
  {
    if values == [] then ""
    else
      var n := RowLength(values);
      "    " + Spaced(values[..n]) + (if n < |values| then "," else "") + "\n" + Rows(values[n..])
  }

  function Header(name: string): string {
    name + "() i32[] {\n  return [\n"
  }

  function Footer(): string {
    "  ];\n}\n\n"
  }

  method WriteI32VectorLiteral(buf: string, name: string, values: seq<nat>) returns (text: string)
    ensures text == buf + (Header(name) + Rows(values) + Footer())
  {
    var body := "";
    var i := 0;
    hide Item;
    while i < |values|
      invariant i <= |values|
      invariant body + Rows(values[i..]) == Rows(values)
    {
      var end := if i + PER_ROW < |values| then i + PER_ROW else |values|;
      var row := WriteRow(values[i..end]);
      RowThenRest(values, i, end);
      var line := "    " + row + (if end < |values| then "," else "") + "\n";
      assert body + Rows(values[i..]) == (body + line) + Rows(values[end..]);
      body := body + line;
      i := end;
    }
    assert values[|values|..] == [];
    text := buf + (Header(name) + body + Footer());
  }

  method WriteRow(values: seq<nat>) returns (row: string)
    ensures row == Spaced(values)
  {
    row := "";
    hide Item;
    for j := 0 to |values|
      invariant row == Spaced(values[..j])
    {
      assert values[..j + 1][..j] == values[..j];
      if j > 0 {
        row := row + ", ";
      }
      row := row + Item(values[j]);
    }
    assert values[..|values|] == values;
  }

  lemma RowThenRest(values: seq<nat>, i: nat, end: nat)
    requires i < |values| && end == if i + PER_ROW < |values| then i + PER_ROW else |values|
    ensures Rows(values[i..])
         == "    " + Spaced(values[i..end]) + (if end < |values| then "," else "") + "\n" + Rows(values[end..])
  {
    var rest := values[i..];
    assert RowLength(rest) == end - i;
    assert rest[..end - i] == values[i..end] && rest[end - i..] == values[end..];
    hide Spaced;
  }

  // --- Reading a literal back ------------------------------------------------------------------------

  predicate IsLayout(c: char) {
    c == ' ' || c == '\n'
  }

  /** A text without its layout. */
  function Squeezed(s: string): string {
    if s == "" then "" else (if IsLayout(s[0]) then "" else [s[0]]) + Squeezed(s[1..])
  }

  /** Every value once, in order, one comma between neighbours and none after the last. */
  function Commas(values: seq<nat>): string {
    if values == [] then ""
    else Item(values[0]) + (if |values| > 1 then "," else "") + Commas(values[1..])
  }

  lemma SqueezedStep(s: string)
    requires s != ""
    ensures Squeezed(s) == (if IsLayout(s[0]) then "" else [s[0]]) + Squeezed(s[1..])
  {
  }

  lemma Regroup(a: string, b: string, c: string)
    ensures a + (b + c) == a + b + c
  {
  }

  lemma {:induction false} SqueezedJoin(a: string, b: string)
    ensures Squeezed(a + b) == Squeezed(a) + Squeezed(b)
  {
    if a == "" {
      assert a + b == b;
    } else {
      hide *;
      assert (a + b)[1..] == a[1..] + b && (a + b)[0] == a[0];
      SqueezedJoin(a[1..], b);
      SqueezedStep(a + b);
      SqueezedStep(a);
      Regroup(if IsLayout(a[0]) then "" else [a[0]], Squeezed(a[1..]), Squeezed(b));
    }
  }

  lemma {:induction false} NothingSqueezed(s: string)
    requires forall i :: 0 <= i < |s| ==> !IsLayout(s[i])
    ensures Squeezed(s) == s
  {
    if s != "" {
      NothingSqueezed(s[1..]);
    }
  }

  lemma ItemSqueezed(n: nat)
    ensures Squeezed(Item(n)) == Item(n)
  {
    assert AllDigits(Decimal(n));
    hide Decimal;
    NothingSqueezed(Item(n));
  }

  lemma {:induction false} CommasSnoc(values: seq<nat>)
    requires |values| > 1
    ensures Commas(values) == Commas(values[..|values| - 1]) + "," + Item(values[|values| - 1])
  {
    hide Item;
    var last := |values| - 1;
    if |values| == 2 {
      assert values[1..] == [values[1]] && values[..1] == [values[0]];
      assert Commas([values[1]]) == Item(values[1]) + "" + "" && Commas([values[0]]) == Item(values[0]) + "" + "";
    } else {
      CommasSnoc(values[1..]);
      assert values[1..][..last - 1] == values[..last][1..];
    }
  }

  lemma {:induction false} SpacedSqueezed(values: seq<nat>)
    ensures Squeezed(Spaced(values)) == Commas(values)
  {
    if values == [] {
    } else if |values| == 1 {
      ItemSqueezed(values[0]);
      assert values[1..] == [];
      hide Item;
    } else {
      var last := |values| - 1;
      hide Item;
      SpacedSqueezed(values[..last]);
      ItemSqueezed(values[last]);
      SqueezedJoin(Spaced(values[..last]) + ", ", Item(values[last]));
      SqueezedJoin(Spaced(values[..last]), ", ");
      CommaSqueezed();
      CommasSnoc(values);
    }
  }

  lemma CommaSqueezed()
    ensures Squeezed(", ") == "," && Squeezed("    ") == "" && Squeezed("\n") == "" && Squeezed(",") == ","
  {
  }

  lemma {:induction false} CommasJoin(a: seq<nat>, b: seq<nat>)
    ensures Commas(a + b) == Commas(a) + (if a != [] && b != [] then "," else "") + Commas(b)
  {
    hide Item;
    if a == [] {
      assert a + b == b;
    } else {
      assert (a + b)[1..] == a[1..] + b;
      CommasJoin(a[1..], b);
    }
  }

  lemma LineSqueezed(row: string, comma: string, rest: string)
    requires comma == "" || comma == ","
    ensures Squeezed("    " + row + comma + "\n" + rest) == Squeezed(row) + comma + Squeezed(rest)
  {
    CommaSqueezed();
    assert Squeezed(comma) == comma;
    hide *;
    FiveSqueezed("    ", row, comma, "\n", rest);
    Empties(Squeezed(row), comma, Squeezed(rest));
  }

  lemma FiveSqueezed(a: string, b: string, c: string, d: string, e: string)
    ensures Squeezed(a + b + c + d + e) == Squeezed(a) + Squeezed(b) + Squeezed(c) + Squeezed(d) + Squeezed(e)
  {
    hide *;
    SqueezedJoin(a + b + c + d, e);
    SqueezedJoin(a + b + c, d);
    SqueezedJoin(a + b, c);
    SqueezedJoin(a, b);
  }

  lemma Empties(a: string, b: string, c: string)
    ensures "" + a + b + "" + c == a + b + c
  {
  }

  /** The rows of a literal, without their layout, are the values with commas between. */
  lemma {:induction false} RowsSqueezed(values: seq<nat>)
    ensures Squeezed(Rows(values)) == Commas(values)
    decreases |values|
  {
    if values != [] {
      var n := RowLength(values);
      var comma := if n < |values| then "," else "";
      assert Rows(values) == "    " + Spaced(values[..n]) + comma + "\n" + Rows(values[n..]);
      assert values == values[..n] + values[n..] && |values[n..]| < |values| && values[..n] != [];
      hide *;
      RowsSqueezed(values[n..]);
      SpacedSqueezed(values[..n]);
      LineSqueezed(Spaced(values[..n]), comma, Rows(values[n..]));
      CommasJoin(values[..n], values[n..]);
    }
  }

  /** Reads numbers up to the first thing that is not one. */
  function ReadItems(s: string): seq<nat>
    decreases |s|
  {
    var k := RunLength(IsDigit, s);
    var rest := s[k..];
    if k == 0 || !("i32" <= rest) then []
    else
      assert AllDigits(s[..k]);
      [Value(s[..k])] + if "," <= rest[3..] then ReadItems(rest[4..]) else []
  }

  /** So the values can be read back from what was written. */
  lemma {:induction false} LiteralReadsBack(values: seq<nat>)
    ensures ReadItems(Squeezed(Rows(values))) == values
  {
    RowsSqueezed(values);
    CommasReadBack(values);
  }

  lemma ReadFirst(n: nat, rest: string)
    ensures ReadItems(Item(n) + rest) == [n] + if "," <= rest then ReadItems(rest[1..]) else []
  {
    var digits, s := Decimal(n), Item(n) + rest;
    DecimalReadsBack(n);
    assert AllDigits(digits) && digits != "";
    hide Decimal, Value;
    var tail := "i32" + rest;
    assert s == digits + tail;
    RunLengthIs(IsDigit, digits, tail);
    assert s[..|digits|] == digits && s[|digits|..] == tail;
    assert tail[3..] == rest && ("," <= rest ==> tail[4..] == rest[1..]);
  }

  lemma CommasFirst(values: seq<nat>)
    requires values != []
    ensures Commas(values) == Item(values[0]) + if |values| > 1 then "," + Commas(values[1..]) else ""
  {
    hide Item;
  }

  lemma {:induction false} CommasReadBack(values: seq<nat>)
    ensures ReadItems(Commas(values)) == values
  {
    if values != [] {
      hide *;
      CommasReadBack(values[1..]);
      CommasFirst(values);
      var more := Commas(values[1..]);
      if |values| > 1 {
        ReadFirst(values[0], "," + more);
        assert ("," + more)[1..] == more;
      } else {
        ReadFirst(values[0], "");
        assert values == [values[0]];
      }
    }
  }
}
