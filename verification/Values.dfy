/** JSON-like runtime values and the dotted-path grammar every reference and data-op key path uses. */
module Values {
  import opened Options

  datatype Value =
    | Null
    | Bool(b: bool)
    | Num(n: int)
    | Str(s: string)
    | List(items: seq<Value>)
    | Dict(entries: seq<Entry>)

  datatype Entry = Entry(key: string, value: Value)

  function Lookup(entries: seq<Entry>, key: string): (r: Option<Value>)
    ensures r.Some? ==> exists i :: 0 <= i < |entries| && entries[i].key == key && entries[i].value == r.value
    ensures r.None? ==> forall i :: 0 <= i < |entries| ==> entries[i].key != key
  {
    if entries == [] then None
    else if entries[0].key == key then Some(entries[0].value)
    else Lookup(entries[1..], key)
  }

  function Get(v: Value, key: string): Option<Value> {
    if v.Dict? then Lookup(v.entries, key) else None
  }

  predicate Has(v: Value, key: string) {
    Get(v, key).Some?
  }

  // ----- paths -----------------------------------------------------------------------------

  /** The segments of a dotted path, split at every dot; empty ones are skipped when walking. */
  function Split(path: string): (r: seq<string>)
    ensures |r| >= 1
  {
    if path == "" then [""]
    else
      var rest := Split(path[1..]);
      if path[0] == '.' then [""] + rest else [[path[0]] + rest[0]] + rest[1..]
  }

  function NonEmpty(segments: seq<string>): (r: seq<string>)
    ensures forall s :: s in r ==> s != "" && s in segments
  {
    if segments == [] then []
    else if segments[0] == "" then NonEmpty(segments[1..])
    else [segments[0]] + NonEmpty(segments[1..])
  }

  function Segments(path: string): seq<string> {
    NonEmpty(Split(path))
  }

  predicate Digit(c: char) { '0' <= c <= '9' }

  predicate IsDigits(segment: string) {
    segment != "" && forall i :: 0 <= i < |segment| ==> Digit(segment[i])
  }

  function ToNat(segment: string): nat
    requires forall i :: 0 <= i < |segment| ==> Digit(segment[i])
  {
    if segment == "" then 0
    else
      assert Digit(segment[|segment| - 1]);
      ToNat(segment[..|segment| - 1]) * 10 + (segment[|segment| - 1] as int - '0' as int)
  }

  /** One step of a walk: a numeric segment indexes a list or a string, any other one a mapping. */
  function Step(v: Value, segment: string): Option<Value> {
    if IsDigits(segment) then
      var i := ToNat(segment);
      match v
      case List(items) => if i < |items| then Some(items[i]) else None
      case Str(s) => if i < |s| then Some(Str([s[i]])) else None
      case _ => None
    else Get(v, segment)
  }

  /** `None` is a path the value does not have. */
  function Walk(v: Value, segments: seq<string>): Option<Value>
    decreases |segments|
  {
    if segments == [] then Some(v)
    else
      var next := Step(v, segments[0]);
      if next.None? then None else Walk(next.value, segments[1..])
  }

  function WalkPath(v: Value, path: string): Option<Value> {
    Walk(v, Segments(path))
  }

  lemma {:induction false} WalkConcat(v: Value, a: seq<string>, b: seq<string>)
    ensures Walk(v, a + b) == if Walk(v, a).None? then None else Walk(Walk(v, a).value, b)
    decreases |a|
  {
    if a == [] {
      assert a + b == b;
    } else {
      assert (a + b)[1..] == a[1..] + b;
      if Step(v, a[0]).Some? {
        WalkConcat(Step(v, a[0]).value, a[1..], b);
      }
    }
  }

  /** Two paths as one: a folded route and the path of the reference it was found in. */
  function JoinPath(a: string, b: string): string {
    if a == "" then b else if b == "" then a else a + "." + b
  }

  lemma {:induction false} SplitJoined(a: string, b: string)
    ensures Split(a + "." + b) == Split(a) + Split(b)
  {
    var joined := a + "." + b;
    if a == "" {
      assert joined[1..] == b;
    } else {
      assert joined[1..] == a[1..] + "." + b;
      SplitJoined(a[1..], b);
    }
  }

  lemma {:induction false} NonEmptyConcat(a: seq<string>, b: seq<string>)
    ensures NonEmpty(a + b) == NonEmpty(a) + NonEmpty(b)
  {
    if a == [] {
      assert a + b == b;
    } else {
      assert (a + b)[1..] == a[1..] + b;
      NonEmptyConcat(a[1..], b);
    }
  }

  lemma SegmentsJoined(a: string, b: string)
    ensures Segments(JoinPath(a, b)) == Segments(a) + Segments(b)
  {
    assert Split("") == [""] && NonEmpty([""]) == [];
    if a != "" && b != "" {
      SplitJoined(a, b);
      NonEmptyConcat(Split(a), Split(b));
    }
  }

  /** Following a joined path is following its two halves in turn, including where either fails. */
  lemma JoinedPathWalks(v: Value, a: string, b: string)
    ensures WalkPath(v, JoinPath(a, b)) ==
              if WalkPath(v, a).None? then None else WalkPath(WalkPath(v, a).value, b)
  {
    SegmentsJoined(a, b);
    WalkConcat(v, Segments(a), Segments(b));
  }

  // ----- what the path grammar means -------------------------------------------------------

  /** Names written as one path. */
  function Written(names: seq<string>): string {
    if names == [] then ""
    else if |names| == 1 then names[0]
    else names[0] + "." + Written(names[1..])
  }

  predicate Name(s: string) { s != "" && '.' !in s }

  lemma {:induction false} SplitName(name: string)
    requires '.' !in name
    ensures Split(name) == [name]
  {
    if name != "" {
      assert name[0] in name;
      assert forall c :: c in name[1..] ==> c in name;
      SplitName(name[1..]);
      assert name == [name[0]] + name[1..];
    }
  }

  /** A path written from names is walked by exactly those names. */
  lemma {:induction false} SegmentsOfWritten(names: seq<string>)
    requires forall n :: n in names ==> Name(n)
    ensures Segments(Written(names)) == names
  {
    if names == [] {
      assert Split("") == [""] && NonEmpty([""]) == [];
    } else {
      var first, rest := names[0], names[1..];
      assert Name(first);
      SplitName(first);
      SegmentsOfWritten(rest);
      assert [first][1..] == [];
      assert NonEmpty([first]) == [first];
      if rest == [] {
        assert names == [first];
      } else {
        assert Name(rest[0]) && Written(rest) != "";
        SegmentsJoined(first, Written(rest));
        assert names == [first] + rest;
      }
    }
  }

  /** Doubled, leading and trailing dots make no difference. */
  lemma DotsAreSkipped(a: string, b: string)
    ensures Segments(a + "." + b) == Segments(a) + Segments(b)
    ensures Segments(a + "." + "" + "." + b) == Segments(a) + Segments(b)
  {
    SplitJoined(a, b);
    NonEmptyConcat(Split(a), Split(b));
    SplitJoined(a + "." + "", b);
    SplitJoined(a, "");
    NonEmptyConcat(Split(a) + Split(""), Split(b));
    NonEmptyConcat(Split(a), Split(""));
    assert Split("") == [""] && NonEmpty([""]) == [];
  }

  lemma {:induction false} DecimalReadsBack(n: nat)
    ensures IsDigits(Decimal(n)) && ToNat(Decimal(n)) == n
  {
    if n >= 10 {
      DecimalReadsBack(n / 10);
      var init := Decimal(n / 10);
      assert Decimal(n)[..|init|] == init;
    }
  }

  /** A number reads that place of a list or a text, counting from zero, and nothing of anything else. */
  lemma NumbersIndex(v: Value, n: nat)
    ensures v.List? && n < |v.items| ==> Step(v, Decimal(n)) == Some(v.items[n])
    ensures v.Str? && n < |v.s| ==> Step(v, Decimal(n)) == Some(Str([v.s[n]]))
    ensures !(v.List? && n < |v.items|) && !(v.Str? && n < |v.s|) ==> Step(v, Decimal(n)) == None
  {
    DecimalReadsBack(n);
  }

  /** Any other segment is a field, which only a mapping has: its first entry of that name. */
  lemma {:induction false} NamesSelect(entries: seq<Entry>, segment: string, i: nat)
    requires exists c :: c in segment && c !in "0123456789"
    requires i < |entries| && entries[i].key == segment && forall j :: 0 <= j < i ==> entries[j].key != segment
    ensures Step(Dict(entries), segment) == Some(entries[i].value)
  {
    var c :| c in segment && c !in "0123456789";
    assert !IsDigits(segment) by {
      if IsDigits(segment) {
        var k :| 0 <= k < |segment| && segment[k] == c;
        assert Digit(c);
        DigitsAreTen(c);
      }
    }
    if i > 0 {
      LookupSkips(entries, segment, i);
    }
  }

  lemma DigitsAreTen(c: char)
    ensures Digit(c) <==> c in "0123456789"
  {
    var ten := "0123456789";
    if Digit(c) {
      assert ten[c as int - '0' as int] == c;
    }
  }

  lemma {:induction false} LookupSkips(entries: seq<Entry>, key: string, i: nat)
    requires i < |entries| && entries[i].key == key && forall j :: 0 <= j < i ==> entries[j].key != key
    ensures Lookup(entries, key) == Some(entries[i].value)
  {
    if i > 0 {
      LookupSkips(entries[1..], key, i - 1);
    }
  }

  // ----- values inside values --------------------------------------------------------------

  function Child(v: Value, i: nat): Option<Value> {
    match v
    case List(items) => if i < |items| then Some(items[i]) else None
    case Dict(entries) => if i < |entries| then Some(entries[i].value) else None
    case _ => None
  }

  /** What lies at a route of positions; there is no way into a value that is itself a hit. */
  function At(v: Value, route: seq<nat>, hit: Value -> bool): Option<Value>
    decreases |route|
  {
    if route == [] then Some(v)
    else if hit(v) || Child(v, route[0]).None? then None
    else At(Child(v, route[0]).value, route[1..], hit)
  }

  /** `x` is a hit somewhere in `v`, at any depth, and not inside another one. */
  ghost predicate Occurs(v: Value, x: Value, hit: Value -> bool) {
    hit(x) && exists route :: At(v, route, hit) == Some(x)
  }

  lemma OccursIff(v: Value, x: Value, hit: Value -> bool)
    ensures Occurs(v, x, hit) <==>
              if hit(v) then x == v else exists i: nat :: Child(v, i).Some? && Occurs(Child(v, i).value, x, hit)
  {
    if hit(v) {
      assert At(v, [], hit) == Some(v);
    } else {
      if Occurs(v, x, hit) {
        var route :| At(v, route, hit) == Some(x);
        assert route != [];
        assert At(Child(v, route[0]).value, route[1..], hit) == Some(x);
      }
      if i: nat :| Child(v, i).Some? && Occurs(Child(v, i).value, x, hit) {
        var route :| At(Child(v, i).value, route, hit) == Some(x);
        assert ([i] + route)[1..] == route;
        assert At(v, [i] + route, hit) == Some(x);
      }
    }
  }

  lemma OccursInside(v: Value, x: Value, hit: Value -> bool)
    requires !hit(v)
    ensures v.List? ==> (Occurs(v, x, hit) <==> exists i: nat :: i < |v.items| && Occurs(v.items[i], x, hit))
    ensures v.Dict? ==> (Occurs(v, x, hit) <==> exists i: nat :: i < |v.entries| && Occurs(v.entries[i].value, x, hit))
    ensures !v.List? && !v.Dict? ==> !Occurs(v, x, hit)
  {
    OccursIff(v, x, hit);
    if v.List? {
      if i: nat :| i < |v.items| && Occurs(v.items[i], x, hit) {
        assert Child(v, i) == Some(v.items[i]);
      }
    } else if v.Dict? {
      if i: nat :| i < |v.entries| && Occurs(v.entries[i].value, x, hit) {
        assert Child(v, i) == Some(v.entries[i].value);
      }
    }
  }

  // ----- emptiness -------------------------------------------------------------------------

  /** A value no step can read anything out of. Not falsiness: zero and false are good values. */
  predicate IsEmpty(v: Value) {
    match v
    case Null => true
    case Str(s) => s == ""
    case List(items) => items == []
    case Dict(entries) => entries == []
    case _ => false
  }

  /** Nothing is there: null, or no character, item or entry. Figures and truth values never are. */
  lemma EmptyMeans(v: Value)
    ensures IsEmpty(v) <==> v in {Null, Str(""), List([]), Dict([])}
  {
  }

  lemma EmptyHasNoPath(v: Value, segments: seq<string>)
    requires IsEmpty(v)
    ensures Walk(v, segments) == if segments == [] then Some(v) else None
  {
  }

  // ----- text ------------------------------------------------------------------------------

  function DigitChar(d: nat): char
    requires d < 10
  {
    ('0' as int + d) as char
  }

  function Decimal(n: nat): string {
    if n < 10 then [DigitChar(n)] else Decimal(n / 10) + [DigitChar(n % 10)]
  }
}
