/**
 * References and their deterministic resolver: `$from` reads the execution history, `$bind` a named
 * binding, `$prop` an observed property, and `$decide` is never resolved mechanically.
 */
module References {
  import opened Options
  import opened Sequences
  import opened Values

  datatype Completed = Completed(tool: string, operation: string, result: Value)

  datatype Property = Property(source: string, name: string, value: Value)

  /** Everything a reference can be resolved against. */
  datatype World = World(history: seq<Completed>, bindings: map<string, Value>, properties: seq<Property>)

  const FROM := "$from"
  const DECIDE := "$decide"
  const BIND := "$bind"
  const PROP := "$prop"
  const PATH := "path"

  predicate IsReference(v: Value) {
    Has(v, FROM) || Has(v, DECIDE) || Has(v, BIND) || Has(v, PROP)
  }

  // ----- $from: the latest result ----------------------------------------------------------

  predicate IsBare(c: Completed, name: string) { c.operation == name }

  predicate IsQualified(c: Completed, name: string) { c.tool + "." + c.operation == name }

  function LatestBare(history: seq<Completed>, name: string): Option<Value> {
    if history == [] then None
    else if IsBare(history[|history| - 1], name) then Some(history[|history| - 1].result)
    else LatestBare(history[..|history| - 1], name)
  }

  function LatestQualified(history: seq<Completed>, name: string): Option<Value> {
    if history == [] then None
    else if IsQualified(history[|history| - 1], name) then Some(history[|history| - 1].result)
    else LatestQualified(history[..|history| - 1], name)
  }

  predicate HasDot(name: string) { '.' in name }

  /** The part after the last dot, or the whole name. */
  function Tail(name: string): string {
    if name == "" then ""
    else if HasDot(name[1..]) then Tail(name[1..])
    else if name[0] == '.' then name[1..]
    else name
  }

  /** Bare name first, then `tool.operation`, then the tail of a dotted name. */
  function LatestResult(history: seq<Completed>, name: string): Option<Value> {
    if LatestBare(history, name).Some? then LatestBare(history, name)
    else if LatestQualified(history, name).Some? || !HasDot(name) then LatestQualified(history, name)
    else LatestBare(history, Tail(name))
  }

  /** The last operation of this very name is the one at `at`. */
  ghost predicate LastNamed(history: seq<Completed>, name: string, at: nat) {
    at < |history| && history[at].operation == name && forall j :: at < j < |history| ==> history[j].operation != name
  }

  predicate Spells(c: Completed, name: string) { name == c.tool + "." + c.operation }

  /** The last operation this spells out with its tool is the one at `at`. */
  ghost predicate LastSpelled(history: seq<Completed>, name: string, at: nat) {
    at < |history| && Spells(history[at], name) && forall j :: at < j < |history| ==> !Spells(history[j], name)
  }

  /** The most recent result of an operation of this name, and none only if it never ran. */
  lemma {:induction false} LatestBareMeans(history: seq<Completed>, name: string)
    ensures LatestBare(history, name).None? ==> forall i :: 0 <= i < |history| ==> history[i].operation != name
    ensures LatestBare(history, name).Some? ==>
              exists at: nat :: LastNamed(history, name, at) && history[at].result == LatestBare(history, name).value
  {
    if history != [] {
      var n := |history| - 1;
      LatestBareMeans(history[..n], name);
      if history[n].operation == name {
        assert LastNamed(history, name, n);
      } else if LatestBare(history, name).Some? {
        var at: nat :| LastNamed(history[..n], name, at)
                       && history[..n][at].result == LatestBare(history[..n], name).value;
        assert LastNamed(history, name, at);
      }
    }
  }

  lemma {:induction false} LatestQualifiedMeans(history: seq<Completed>, name: string)
    ensures LatestQualified(history, name).None? ==> forall i :: 0 <= i < |history| ==> !Spells(history[i], name)
    ensures LatestQualified(history, name).Some? ==>
              exists at: nat :: LastSpelled(history, name, at)
                                && history[at].result == LatestQualified(history, name).value
  {
    if history != [] {
      var n := |history| - 1;
      LatestQualifiedMeans(history[..n], name);
      if Spells(history[n], name) {
        assert LastSpelled(history, name, n);
      } else if LatestQualified(history, name).Some? {
        var at: nat :| LastSpelled(history[..n], name, at)
                       && history[..n][at].result == LatestQualified(history[..n], name).value;
        assert LastSpelled(history, name, at);
      }
    }
  }

  /** The tail of a dotted name is what follows its last dot. */
  lemma {:induction false} TailMeans(name: string) returns (head: string)
    ensures '.' !in Tail(name)
    ensures '.' !in name ==> Tail(name) == name
    ensures '.' in name ==> name == head + "." + Tail(name)
  {
    head := "";
    if name != "" {
      var inner := TailMeans(name[1..]);
      assert name == [name[0]] + name[1..];
      if '.' in name[1..] {
        head := [name[0]] + inner;
        assert name == head + "." + Tail(name);
      } else if name[0] == '.' {
        assert name == "" + "." + name[1..];
      }
    }
  }

  ghost predicate RanAs(history: seq<Completed>, name: string) {
    exists i :: 0 <= i < |history| && history[i].operation == name
  }

  ghost predicate RanSpelled(history: seq<Completed>, name: string) {
    exists i :: 0 <= i < |history| && Spells(history[i], name)
  }

  /**
   * The operation a name means: an exact bare match whatever else ran, then `tool.operation`, and only for
   * a dotted name that matches neither, its tail.
   */
  lemma LatestResultMeans(history: seq<Completed>, name: string)
    ensures RanAs(history, name) ==>
              exists at: nat :: LastNamed(history, name, at) && LatestResult(history, name) == Some(history[at].result)
    ensures !RanAs(history, name) && RanSpelled(history, name) ==>
              exists at: nat ::
                LastSpelled(history, name, at) && LatestResult(history, name) == Some(history[at].result)
    ensures !RanAs(history, name) && !RanSpelled(history, name) && '.' in name && RanAs(history, Tail(name)) ==>
              exists at: nat :: LastNamed(history, Tail(name), at)
                                && LatestResult(history, name) == Some(history[at].result)
    ensures !RanAs(history, name) && !RanSpelled(history, name) && ('.' in name ==> !RanAs(history, Tail(name))) ==>
              LatestResult(history, name) == None
  {
    BareIff(history, name);
    SpelledIff(history, name);
    BareIff(history, Tail(name));
  }

  lemma BareIff(history: seq<Completed>, name: string)
    ensures RanAs(history, name) <==> LatestBare(history, name).Some?
    ensures RanAs(history, name) ==>
              exists at: nat :: LastNamed(history, name, at) && LatestBare(history, name) == Some(history[at].result)
  {
    LatestBareMeans(history, name);
  }

  lemma SpelledIff(history: seq<Completed>, name: string)
    ensures RanSpelled(history, name) <==> LatestQualified(history, name).Some?
    ensures RanSpelled(history, name) ==>
              exists at: nat :: LastSpelled(history, name, at)
                                && LatestQualified(history, name) == Some(history[at].result)
  {
    LatestQualifiedMeans(history, name);
  }

  // ----- $prop: the longest unique reading -------------------------------------------------

  datatype PropertyMatch = Found(value: Value, residual: string) | Absent | Ambiguous

  function Qualified(properties: seq<Property>, head: string): seq<Property> {
    if properties == [] then []
    else
      var p := properties[0];
      (if p.source + "." + p.name == head then [p] else []) + Qualified(properties[1..], head)
  }

  function Named(properties: seq<Property>, head: string): seq<Property> {
    if properties == [] then []
    else
      var p := properties[0];
      (if p.name == head then [p] else []) + Named(properties[1..], head)
  }

  /** The properties a head can mean: the qualified reading beats the bare one. */
  function Candidates(properties: seq<Property>, head: string): seq<Property> {
    if Qualified(properties, head) != [] then Qualified(properties, head) else Named(properties, head)
  }

  /** A place the token may be cut into a head and a folded route: its end, or any dot. */
  predicate IsCut(token: string, cut: nat) {
    cut == |token| || (cut < |token| && token[cut] == '.')
  }

  function Residual(token: string, cut: nat): string
    requires cut <= |token|
  {
    if cut == |token| then "" else token[cut + 1..]
  }

  /** The token may be cut here, and the head so cut off names some observed property. */
  predicate Names(properties: seq<Property>, token: string, cut: nat)
    requires cut <= |token|
  {
    IsCut(token, cut) && Candidates(properties, token[..cut]) != []
  }

  function Meaning(properties: seq<Property>, token: string, cut: nat): PropertyMatch
    requires cut <= |token| && Names(properties, token, cut)
  {
    var keys := Candidates(properties, token[..cut]);
    if |keys| == 1 then Found(keys[0].value, Residual(token, cut)) else Ambiguous
  }

  /** From the longest cut down: the first head that names anything decides. */
  function PropertyRefFrom(properties: seq<Property>, token: string, cut: nat): PropertyMatch
    requires cut <= |token|
  {
    if Names(properties, token, cut) then Meaning(properties, token, cut)
    else if cut == 0 then Absent
    else PropertyRefFrom(properties, token, cut - 1)
  }

  function PropertyRef(properties: seq<Property>, token: string): PropertyMatch {
    PropertyRefFrom(properties, token, |token|)
  }

  /** `cut` is the longest head of the token that means anything at all. */
  ghost predicate LongestCut(properties: seq<Property>, token: string, cut: nat, below: nat) {
    && cut <= below <= |token| && Names(properties, token, cut)
    && (forall c :: cut < c <= below ==> !Names(properties, token, c))
  }

  lemma {:induction false} PropertyRefFromAbsent(properties: seq<Property>, token: string, from: nat)
    requires from <= |token|
    ensures PropertyRefFrom(properties, token, from) == Absent <==>
              forall c :: 0 <= c <= from ==> !Names(properties, token, c)
  {
    if !Names(properties, token, from) && from > 0 {
      PropertyRefFromAbsent(properties, token, from - 1);
    }
  }

  /** No head from `cut` up to `from`, the longer ones first, names anything. */
  predicate Unnamed(properties: seq<Property>, token: string, from: nat, cut: nat)
    requires cut <= from <= |token|
  {
    cut == from || (!Names(properties, token, from) && Unnamed(properties, token, from - 1, cut))
  }

  lemma {:induction false} UnnamedAll(properties: seq<Property>, token: string, from: nat, cut: nat)
    requires cut <= from <= |token|
    requires forall c :: cut < c <= from ==> !Names(properties, token, c)
    ensures Unnamed(properties, token, from, cut)
  {
    if cut < from {
      UnnamedAll(properties, token, from - 1, cut);
    }
  }

  lemma {:induction false} PropertyRefFromSkips(properties: seq<Property>, token: string, from: nat, cut: nat)
    requires cut <= from <= |token| && Unnamed(properties, token, from, cut)
    ensures PropertyRefFrom(properties, token, from) == PropertyRefFrom(properties, token, cut)
  {
    if cut < from {
      PropertyRefFromSkips(properties, token, from - 1, cut);
    }
  }

  /**
   * A `$prop` token means its longest head that names any observed property, and never a guess: two
   * properties matching that head make it ambiguous, whatever a shorter head would have matched.
   */
  lemma PropertyRefIsLongestUnique(properties: seq<Property>, token: string)
    ensures PropertyRef(properties, token) == Absent <==>
              forall c :: 0 <= c <= |token| && IsCut(token, c) ==> Candidates(properties, token[..c]) == []
    ensures forall cut: nat :: LongestCut(properties, token, cut, |token|) ==>
              (PropertyRef(properties, token).Found? <==> |Candidates(properties, token[..cut])| == 1)
              && (PropertyRef(properties, token).Found? ==>
                    PropertyRef(properties, token) ==
                    Found(Candidates(properties, token[..cut])[0].value, Residual(token, cut)))
  {
    PropertyRefFromAbsent(properties, token, |token|);
    assert forall c :: 0 <= c <= |token| ==>
             (Names(properties, token, c) <==> IsCut(token, c) && Candidates(properties, token[..c]) != []);
    forall cut: nat | LongestCut(properties, token, cut, |token|)
      ensures PropertyRef(properties, token) == Meaning(properties, token, cut)
    {
      UnnamedAll(properties, token, |token|, cut);
      PropertyRefFromSkips(properties, token, |token|, cut);
    }
  }

  /** The token is this head alone, or this head, a dot and a route. */
  predicate HeadOf(token: string, head: string, route: string) {
    (token == head && route == "") || token == head + "." + route
  }

  /** The head names something, and no longer head of the token names anything. */
  ghost predicate LongestHead(properties: seq<Property>, token: string, head: string, route: string) {
    && HeadOf(token, head, route) && Candidates(properties, head) != []
    && forall h, r :: HeadOf(token, h, r) && |h| > |head| ==> Candidates(properties, h) == []
  }

  lemma CutIsHead(token: string, cut: nat)
    requires cut <= |token| && IsCut(token, cut)
    ensures HeadOf(token, token[..cut], Residual(token, cut))
  {
    if cut < |token| {
      assert token == token[..cut] + [token[cut]] + token[cut + 1..];
    } else {
      TakeAll(token);
    }
  }

  lemma HeadIsCut(token: string, head: string, route: string)
    requires HeadOf(token, head, route)
    ensures |head| <= |token| && IsCut(token, |head|) && token[..|head|] == head
    ensures |head| < |token| ==> Residual(token, |head|) == route
  {
    if token == head + "." + route {
      assert token[|head|] == '.';
      assert token[|head| + 1..] == route;
    }
  }

  lemma {:induction false} FirstCut(properties: seq<Property>, token: string, from: nat) returns (cut: nat)
    requires from <= |token| && PropertyRefFrom(properties, token, from) != Absent
    ensures LongestCut(properties, token, cut, from)
    ensures PropertyRefFrom(properties, token, from) == Meaning(properties, token, cut)
  {
    if Names(properties, token, from) {
      cut := from;
    } else {
      cut := FirstCut(properties, token, from - 1);
    }
  }

  lemma LongestCutIsHead(properties: seq<Property>, token: string, cut: nat)
    requires LongestCut(properties, token, cut, |token|)
    ensures LongestHead(properties, token, token[..cut], Residual(token, cut))
  {
    CutIsHead(token, cut);
    forall h, r | HeadOf(token, h, r) && |h| > cut
      ensures Candidates(properties, h) == []
    {
      HeadIsCut(token, h, r);
      assert !Names(properties, token, |h|);
    }
  }

  /**
   * What a `$prop` token means, in terms of the heads it can be split at: absent when none names anything,
   * otherwise decided by the longest that does, found if it names one property and ambiguous if more.
   */
  lemma PropertyRefMeans(properties: seq<Property>, token: string)
    ensures PropertyRef(properties, token) == Absent <==>
              forall head, route :: HeadOf(token, head, route) ==> Candidates(properties, head) == []
    ensures PropertyRef(properties, token).Found? ==>
              exists head, p :: LongestHead(properties, token, head, PropertyRef(properties, token).residual)
                                && Candidates(properties, head) == [p]
                                && p.value == PropertyRef(properties, token).value
    ensures PropertyRef(properties, token) == Ambiguous ==>
              exists head, route :: LongestHead(properties, token, head, route) && |Candidates(properties, head)| > 1
  {
    AbsentMeans(properties, token);
    if PropertyRef(properties, token) != Absent {
      var cut := FirstCut(properties, token, |token|);
      LongestCutIsHead(properties, token, cut);
      var head, route := token[..cut], Residual(token, cut);
      assert LongestHead(properties, token, head, route);
      if |Candidates(properties, head)| == 1 {
        assert Candidates(properties, head) == [Candidates(properties, head)[0]];
      }
    }
  }

  lemma AbsentMeans(properties: seq<Property>, token: string)
    ensures PropertyRef(properties, token) == Absent <==>
              forall head, route :: HeadOf(token, head, route) ==> Candidates(properties, head) == []
  {
    PropertyRefFromAbsent(properties, token, |token|);
    if PropertyRef(properties, token) == Absent {
      forall head, route | HeadOf(token, head, route)
        ensures Candidates(properties, head) == []
      {
        HeadIsCut(token, head, route);
        assert !Names(properties, token, |head|);
      }
    } else {
      var c :| 0 <= c <= |token| && Names(properties, token, c);
      CutIsHead(token, c);
    }
  }

  /** The full name a property is known by. */
  predicate FullName(p: Property, head: string) { head == p.source + "." + p.name }

  lemma {:induction false} QualifiedHas(properties: seq<Property>, head: string)
    ensures forall p :: p in Qualified(properties, head) <==> p in properties && FullName(p, head)
    ensures Distinct(properties) ==> Distinct(Qualified(properties, head))
  {
    if properties != [] {
      QualifiedHas(properties[1..], head);
      RestDistinct(properties);
      DistinctCons(properties[0], Qualified(properties[1..], head));
    }
  }

  lemma {:induction false} NamedHas(properties: seq<Property>, head: string)
    ensures forall p :: p in Named(properties, head) <==> p in properties && p.name == head
    ensures Distinct(properties) ==> Distinct(Named(properties, head))
  {
    if properties != [] {
      NamedHas(properties[1..], head);
      RestDistinct(properties);
      DistinctCons(properties[0], Named(properties[1..], head));
    }
  }

  /**
   * The properties a head can mean: those of that full name, or if there are none those of that bare name.
   * One property observed twice is not two candidates, since no property is.
   */
  lemma CandidatesMean(properties: seq<Property>, head: string)
    ensures (exists p :: p in properties && FullName(p, head)) ==>
              forall p :: p in Candidates(properties, head) <==> p in properties && FullName(p, head)
    ensures !(exists p :: p in properties && FullName(p, head)) ==>
              forall p :: p in Candidates(properties, head) <==> p in properties && p.name == head
    ensures Distinct(properties) ==> Distinct(Candidates(properties, head))
  {
    QualifiedHas(properties, head);
    NamedHas(properties, head);
    if p :| p in properties && FullName(p, head) {
      assert p in Qualified(properties, head);
    }
    if Qualified(properties, head) != [] {
      assert Qualified(properties, head)[0] in Qualified(properties, head);
    }
  }

  // ----- one reference ---------------------------------------------------------------------

  /** `Raises` is the attribute error of splitting a path that is not a string: nothing catches it. */
  datatype Outcome = Resolved(value: Value) | Missing | BadPath | Raises

  function Walked(v: Value, path: string): Outcome {
    var r := WalkPath(v, path);
    if r.Some? then Resolved(r.value) else BadPath
  }

  function WalkedRaw(v: Value, path: Option<Value>): Outcome {
    match path
    case None => Walked(v, "")
    case Some(Str(s)) => Walked(v, s)
    case Some(_) => Raises
  }

  /** A value used where the code takes its string form; only text and integers occur as tokens. */
  function Text(v: Value): string {
    match v
    case Str(s) => s
    case Num(n) => if n >= 0 then Decimal(n) else "-" + Decimal(-n)
    case Bool(b) => if b then "True" else "False"
    case Null => "None"
    case _ => "?"
  }

  /** Text is itself; a figure is written in decimal with its sign, a truth value and null by their names. */
  lemma TextMeans(v: Value)
    ensures v.Str? ==> Text(v) == v.s
    ensures v.Num? && v.n >= 0 ==> IsDigits(Text(v)) && ToNat(Text(v)) == v.n
    ensures v.Num? && v.n < 0 ==>
              Text(v) != "" && Text(v)[0] == '-' && IsDigits(Text(v)[1..]) && ToNat(Text(v)[1..]) == -v.n
    ensures v == Bool(true) ==> Text(v) == "True"
    ensures v == Bool(false) ==> Text(v) == "False"
    ensures v == Null ==> Text(v) == "None"
  {
    if v.Num? {
      DecimalReadsBack(if v.n >= 0 then v.n else -v.n);
      assert v.n < 0 ==> Text(v)[1..] == Decimal(-v.n);
    }
  }

  function PathText(ref: Value): string {
    var path := Get(ref, PATH);
    if path.Some? then Text(path.value) else ""
  }

  function ResolveRef(ref: Value, w: World): Outcome {
    if Has(ref, FROM) then
      var result := LatestResult(w.history, Text(Get(ref, FROM).value));
      if result.None? then Missing else WalkedRaw(result.value, Get(ref, PATH))
    else if Has(ref, BIND) then
      var name := Get(ref, BIND).value;
      if name.Str? && name.s in w.bindings then WalkedRaw(w.bindings[name.s], Get(ref, PATH)) else Missing
    else if Has(ref, PROP) then
      match PropertyRef(w.properties, Text(Get(ref, PROP).value))
      case Found(value, residual) => Walked(value, JoinPath(residual, PathText(ref)))
      case _ => Missing
    else Missing
  }

  /** A reference whose path is text, or that has none. */
  predicate Routed(ref: Value) {
    Get(ref, PATH).Some? ==> Get(ref, PATH).value.Str?
  }

  /**
   * A route folded into a `$prop` token is walked before the path of the reference: the token names the
   * outer part of the way.
   */
  lemma FoldedRouteFirst(ref: Value, w: World, token: string)
    requires !Has(ref, FROM) && !Has(ref, BIND) && Get(ref, PROP) == Some(Str(token)) && Routed(ref)
    ensures var m, r := PropertyRef(w.properties, token), ResolveRef(ref, w);
            && (!m.Found? ==> r == Missing)
            && (m.Found? && WalkPath(m.value, m.residual).None? ==> r == BadPath)
            && (m.Found? && WalkPath(m.value, m.residual).Some? ==>
                  r == Walked(WalkPath(m.value, m.residual).value, PathText(ref)))
  {
    var m := PropertyRef(w.properties, token);
    if m.Found? {
      JoinedPathWalks(m.value, m.residual, PathText(ref));
    }
  }

  /** Splitting such a token where its property's name ends reads the same value. */
  lemma SplitReadsTheSame(ref: Value, split: Value, w: World, token: string, cut: nat)
    requires !Has(ref, FROM) && !Has(ref, BIND) && Get(ref, PROP) == Some(Str(token)) && Routed(ref)
    requires LongestCut(w.properties, token, cut, |token|)
    requires !Has(split, FROM) && !Has(split, BIND) && Get(split, PROP) == Some(Str(token[..cut]))
    requires Get(split, PATH) == Some(Str(JoinPath(Residual(token, cut), PathText(ref))))
    ensures ResolveRef(split, w) == ResolveRef(ref, w)
  {
    var head := token[..cut];
    PropertyRefIsLongestUnique(w.properties, token);
    TakeAll(head);
    assert IsCut(head, |head|) && Names(w.properties, head, |head|);
    assert PropertyRef(w.properties, head) == Meaning(w.properties, head, |head|);
    UnnamedAll(w.properties, token, |token|, cut);
    PropertyRefFromSkips(w.properties, token, |token|, cut);
    assert PropertyRef(w.properties, token) == Meaning(w.properties, token, cut);
  }

  // ----- anywhere in a value ---------------------------------------------------------------

  datatype Grounded = Grounded(value: Value, ok: bool) | Raised

  function Reference(v: Value, w: World): Grounded {
    if Has(v, DECIDE) then Grounded(v, false)
    else
      match ResolveRef(v, w)
      case Resolved(got) => Grounded(got, true)
      case Raises => Raised
      case _ => Grounded(v, false)
  }

  datatype GroundedList = GroundedList(items: seq<Value>, ok: bool) | ListRaised
  datatype GroundedDict = GroundedDict(entries: seq<Entry>, ok: bool) | DictRaised

  function ResolveNested(v: Value, w: World): Grounded
    decreases v, 1
  {
    if IsReference(v) then Reference(v, w)
    else
      match v
      case Dict(entries) =>
        var r := ResolveEntries(entries, w);
        if r.DictRaised? then Raised else Grounded(Dict(r.entries), r.ok)
      case List(items) =>
        var r := ResolveItems(items, w);
        if r.ListRaised? then Raised else Grounded(List(r.items), r.ok)
      case _ => Grounded(v, true)
  }

  function ResolveItems(items: seq<Value>, w: World): (r: GroundedList)
    ensures r.GroundedList? ==> |r.items| == |items|
    decreases items, 0
  {
    if items == [] then GroundedList([], true)
    else
      var rest := ResolveItems(items[..|items| - 1], w);
      var last := ResolveNested(items[|items| - 1], w);
      if rest.ListRaised? || last.Raised? then ListRaised
      else GroundedList(rest.items + [last.value], rest.ok && last.ok)
  }

  function ResolveEntries(entries: seq<Entry>, w: World): (r: GroundedDict)
    ensures r.GroundedDict? ==> |r.entries| == |entries|
    ensures r.GroundedDict? ==> forall i :: 0 <= i < |entries| ==> r.entries[i].key == entries[i].key
    decreases entries, 0
  {
    if entries == [] then GroundedDict([], true)
    else
      var rest := ResolveEntries(entries[..|entries| - 1], w);
      var e := entries[|entries| - 1];
      var last := ResolveNested(e.value, w);
      if rest.DictRaised? || last.Raised? then DictRaised
      else GroundedDict(rest.entries + [Entry(e.key, last.value)], rest.ok && last.ok)
  }

  // ----- what is left over -----------------------------------------------------------------

  datatype Hop = Field(key: string) | Index(i: nat)

  /** The positions of every reference in `v`, at any depth, not looking inside a reference. */
  function ReferencePaths(v: Value, prefix: seq<Hop>): seq<seq<Hop>>
    decreases v, 1
  {
    if IsReference(v) then [prefix]
    else
      match v
      case Dict(entries) => EntryPaths(entries, prefix)
      case List(items) => ItemPaths(items, prefix)
      case _ => []
  }

  function ItemPaths(items: seq<Value>, prefix: seq<Hop>): seq<seq<Hop>>
    decreases items, 0
  {
    if items == [] then []
    else
      ItemPaths(items[..|items| - 1], prefix)
      + ReferencePaths(items[|items| - 1], prefix + [Index(|items| - 1)])
  }

  function EntryPaths(entries: seq<Entry>, prefix: seq<Hop>): seq<seq<Hop>>
    decreases entries, 0
  {
    if entries == [] then []
    else
      EntryPaths(entries[..|entries| - 1], prefix)
      + ReferencePaths(entries[|entries| - 1].value, prefix + [Field(entries[|entries| - 1].key)])
  }

  /** What a source yields at a path, or the reference itself to be escalated. */
  function Yield(source: Option<Value>, path: string, ref: Value): Grounded {
    if source.None? || WalkPath(source.value, path).None? then Grounded(ref, false)
    else Grounded(WalkPath(source.value, path).value, true)
  }

  /**
   * What a reference with a text path reads: `$decide` nothing whatever else it names, then `$from` the
   * latest result, `$bind` the binding, and `$prop` the property its token means.
   */
  lemma ReferenceReads(ref: Value, w: World, token: string)
    requires Routed(ref)
    ensures Has(ref, DECIDE) ==> ResolveNested(ref, w) == Grounded(ref, false)
    ensures !Has(ref, DECIDE) && Get(ref, FROM) == Some(Str(token)) ==>
              ResolveNested(ref, w) == Yield(LatestResult(w.history, token), PathText(ref), ref)
    ensures !Has(ref, DECIDE) && !Has(ref, FROM) && Get(ref, BIND) == Some(Str(token)) ==>
              ResolveNested(ref, w)
              == Yield(if token in w.bindings then Some(w.bindings[token]) else None, PathText(ref), ref)
    ensures !Has(ref, DECIDE) && !Has(ref, FROM) && !Has(ref, BIND) && Get(ref, PROP) == Some(Str(token)) ==>
              var m := PropertyRef(w.properties, token);
              ResolveNested(ref, w)
              == if m.Found? && WalkPath(m.value, m.residual).Some? then
                   Yield(WalkPath(m.value, m.residual), PathText(ref), ref)
                 else Grounded(ref, false)
  {
    if !Has(ref, FROM) && !Has(ref, BIND) && Get(ref, PROP) == Some(Str(token)) {
      FoldedRouteFirst(ref, w, token);
    }
  }

  /** The hops of a route of positions. */
  function Hops(v: Value, route: seq<nat>): seq<Hop>
    decreases |route|
  {
    if route == [] || Child(v, route[0]).None? then []
    else [if v.Dict? then Field(v.entries[route[0]].key) else Index(route[0])]
         + Hops(Child(v, route[0]).value, route[1..])
  }

  /** A reference lies in `v` at a route whose hops, after the prefix, are this path. */
  ghost predicate LeadsTo(v: Value, prefix: seq<Hop>, path: seq<Hop>) {
    exists route :: At(v, route, IsReference).Some? && IsReference(At(v, route, IsReference).value)
                    && path == prefix + Hops(v, route)
  }

  function HopTo(v: Value, i: nat): Hop
    requires Child(v, i).Some?
  {
    if v.Dict? then Field(v.entries[i].key) else Index(i)
  }

  lemma LeadsToIff(v: Value, prefix: seq<Hop>, path: seq<Hop>)
    ensures LeadsTo(v, prefix, path) <==>
              if IsReference(v) then path == prefix
              else exists i: nat :: Child(v, i).Some? && LeadsTo(Child(v, i).value, prefix + [HopTo(v, i)], path)
  {
    if LeadsTo(v, prefix, path) {
      var route :| At(v, route, IsReference).Some? && IsReference(At(v, route, IsReference).value)
                   && path == prefix + Hops(v, route);
      if route == [] {
        ConcatNil(prefix);
      } else {
        var i := route[0];
        LeadsOn(v, prefix, route, i);
      }
    }
    if IsReference(v) {
      ConcatNil(prefix);
      assert At(v, [], IsReference) == Some(v);
    } else if i: nat :| Child(v, i).Some? && LeadsTo(Child(v, i).value, prefix + [HopTo(v, i)], path) {
      var route :| At(Child(v, i).value, route, IsReference).Some?
                   && IsReference(At(Child(v, i).value, route, IsReference).value)
                   && path == prefix + [HopTo(v, i)] + Hops(Child(v, i).value, route);
      LeadsBack(v, prefix, route, i);
    }
  }

  lemma LeadsOn(v: Value, prefix: seq<Hop>, route: seq<nat>, i: nat)
    requires route != [] && route[0] == i && At(v, route, IsReference).Some?
    requires IsReference(At(v, route, IsReference).value)
    ensures Child(v, i).Some? && !IsReference(v)
    ensures LeadsTo(Child(v, i).value, prefix + [HopTo(v, i)], prefix + Hops(v, route))
  {
    var c, rest := Child(v, i).value, route[1..];
    assert At(c, rest, IsReference) == At(v, route, IsReference);
    assert Hops(v, route) == [HopTo(v, i)] + Hops(c, rest);
    ConcatCons(prefix, HopTo(v, i), Hops(c, rest));
  }

  lemma LeadsBack(v: Value, prefix: seq<Hop>, route: seq<nat>, i: nat)
    requires !IsReference(v) && Child(v, i).Some? && At(Child(v, i).value, route, IsReference).Some?
    requires IsReference(At(Child(v, i).value, route, IsReference).value)
    ensures LeadsTo(v, prefix, prefix + [HopTo(v, i)] + Hops(Child(v, i).value, route))
  {
    var whole := [i] + route;
    assert whole[1..] == route;
    assert At(v, whole, IsReference) == At(Child(v, i).value, route, IsReference);
    assert Hops(v, whole) == [HopTo(v, i)] + Hops(Child(v, i).value, route);
    ConcatCons(prefix, HopTo(v, i), Hops(Child(v, i).value, route));
  }

  lemma ChildrenLead(v: Value, prefix: seq<Hop>, path: seq<Hop>)
    ensures v.List? ==>
              ((exists i: nat :: Child(v, i).Some? && LeadsTo(Child(v, i).value, prefix + [HopTo(v, i)], path)) <==>
               exists i: nat :: i < |v.items| && LeadsTo(v.items[i], prefix + [Index(i)], path))
    ensures v.Dict? ==>
              ((exists i: nat :: Child(v, i).Some? && LeadsTo(Child(v, i).value, prefix + [HopTo(v, i)], path)) <==>
               exists i: nat ::
                 i < |v.entries| && LeadsTo(v.entries[i].value, prefix + [Field(v.entries[i].key)], path))
  {
    if v.List? {
      if i: nat :| i < |v.items| && LeadsTo(v.items[i], prefix + [Index(i)], path) {
        assert Child(v, i) == Some(v.items[i]) && HopTo(v, i) == Index(i);
      }
    } else if v.Dict? {
      if i: nat :| i < |v.entries| && LeadsTo(v.entries[i].value, prefix + [Field(v.entries[i].key)], path) {
        assert Child(v, i) == Some(v.entries[i].value) && HopTo(v, i) == Field(v.entries[i].key);
      }
    }
  }

  /** The leak guard reports exactly the places of the references, at any depth, by the hops that lead there. */
  lemma {:induction false} PathsAreReferences(v: Value, prefix: seq<Hop>)
    ensures forall path :: path in ReferencePaths(v, prefix) <==> LeadsTo(v, prefix, path)
    decreases v, 1
  {
    if v.Dict? && !IsReference(v) {
      EntryPathsLead(v.entries, prefix);
    } else if v.List? {
      ItemPathsLead(v.items, prefix);
    }
    forall path
      ensures path in ReferencePaths(v, prefix) <==> LeadsTo(v, prefix, path)
    {
      LeadsToIff(v, prefix, path);
      if !IsReference(v) {
        ChildrenLead(v, prefix, path);
      }
    }
  }

  lemma {:induction false} ItemPathsLead(items: seq<Value>, prefix: seq<Hop>)
    ensures forall path :: path in ItemPaths(items, prefix) <==>
              exists i: nat :: i < |items| && LeadsTo(items[i], prefix + [Index(i)], path)
    decreases items, 0
  {
    if items != [] {
      var n := |items| - 1;
      ItemPathsLead(items[..n], prefix);
      PathsAreReferences(items[n], prefix + [Index(n)]);
    }
  }

  lemma {:induction false} EntryPathsLead(entries: seq<Entry>, prefix: seq<Hop>)
    ensures forall path :: path in EntryPaths(entries, prefix) <==>
              exists i: nat :: i < |entries| && LeadsTo(entries[i].value, prefix + [Field(entries[i].key)], path)
    decreases entries, 0
  {
    if entries != [] {
      var n := |entries| - 1;
      EntryPathsLead(entries[..n], prefix);
      PathsAreReferences(entries[n].value, prefix + [Field(entries[n].key)]);
    }
  }

  /** Whether a reference occurs anywhere in `v`. */
  predicate Mentions(v: Value)
    decreases v, 1
  {
    IsReference(v) ||
    match v
    case Dict(entries) => exists i :: 0 <= i < |entries| && Mentions(entries[i].value)
    case List(items) => exists i :: 0 <= i < |items| && Mentions(items[i])
    case _ => false
  }

  lemma {:induction false} NoPathsIffNoMention(v: Value, prefix: seq<Hop>)
    ensures ReferencePaths(v, prefix) == [] <==> !Mentions(v)
    decreases v, 1
  {
    if !IsReference(v) {
      match v
      case Dict(entries) => NoEntryPaths(entries, prefix);
      case List(items) => NoItemPaths(items, prefix);
      case _ =>
    }
  }

  lemma {:induction false} NoItemPaths(items: seq<Value>, prefix: seq<Hop>)
    ensures ItemPaths(items, prefix) == [] <==> forall i :: 0 <= i < |items| ==> !Mentions(items[i])
    decreases items, 0
  {
    if items != [] {
      var init, last := items[..|items| - 1], items[|items| - 1];
      NoItemPaths(init, prefix);
      NoPathsIffNoMention(last, prefix + [Index(|items| - 1)]);
      assert forall i :: 0 <= i < |init| ==> init[i] == items[i];
    }
  }

  lemma {:induction false} NoEntryPaths(entries: seq<Entry>, prefix: seq<Hop>)
    ensures EntryPaths(entries, prefix) == [] <==> forall i :: 0 <= i < |entries| ==> !Mentions(entries[i].value)
    decreases entries, 0
  {
    if entries != [] {
      var init, last := entries[..|entries| - 1], entries[|entries| - 1];
      NoEntryPaths(init, prefix);
      NoPathsIffNoMention(last.value, prefix + [Field(last.key)]);
      assert forall i :: 0 <= i < |init| ==> init[i] == entries[i];
    }
  }

  // ----- sources without reference-shaped data ----------------------------------------------

  ghost predicate Plain(w: World) {
    && (forall c :: c in w.history ==> !Mentions(c.result))
    && (forall name :: name in w.bindings ==> !Mentions(w.bindings[name]))
    && (forall p :: p in w.properties ==> !Mentions(p.value))
  }

  lemma {:induction false} WalkKeepsPlain(v: Value, segments: seq<string>)
    requires !Mentions(v) && Walk(v, segments).Some?
    ensures !Mentions(Walk(v, segments).value)
    decreases |segments|
  {
    if segments != [] {
      var next := Step(v, segments[0]).value;
      assert !Mentions(next) by {
        if v.Dict? && !IsDigits(segments[0]) {
          var i :| 0 <= i < |v.entries| && v.entries[i].key == segments[0] && v.entries[i].value == next;
        }
      }
      WalkKeepsPlain(next, segments[1..]);
    }
  }

  lemma {:induction false} LatestIsFromHistory(history: seq<Completed>, name: string)
    ensures LatestBare(history, name).Some? ==>
              exists c :: c in history && IsBare(c, name) && c.result == LatestBare(history, name).value
    ensures LatestQualified(history, name).Some? ==>
              exists c :: c in history && IsQualified(c, name) && c.result == LatestQualified(history, name).value
  {
    if history != [] {
      var init := history[..|history| - 1];
      LatestIsFromHistory(init, name);
      assert forall c :: c in init ==> c in history;
      assert history[|history| - 1] in history;
    }
  }

  lemma {:induction false} CandidatesAreObserved(properties: seq<Property>, head: string)
    ensures forall p :: p in Qualified(properties, head) ==> p in properties
    ensures forall p :: p in Named(properties, head) ==> p in properties
  {
    if properties != [] {
      CandidatesAreObserved(properties[1..], head);
    }
  }

  lemma MeaningIsObserved(properties: seq<Property>, token: string, cut: nat)
    requires cut <= |token| && Names(properties, token, cut) && Meaning(properties, token, cut).Found?
    ensures exists p :: p in properties && p.value == Meaning(properties, token, cut).value
  {
    var keys := Candidates(properties, token[..cut]);
    CandidatesAreObserved(properties, token[..cut]);
    assert keys[0] in keys;
    assert keys[0] in properties;
  }

  lemma {:induction false} FoundIsObserved(properties: seq<Property>, token: string, cut: nat)
    requires cut <= |token| && PropertyRefFrom(properties, token, cut).Found?
    ensures exists p :: p in properties && p.value == PropertyRefFrom(properties, token, cut).value
  {
    if Names(properties, token, cut) {
      MeaningIsObserved(properties, token, cut);
    } else {
      FoundIsObserved(properties, token, cut - 1);
    }
  }

  /** What a reference resolves to is part of some source. */
  lemma ResolvedIsPlain(ref: Value, w: World)
    requires Plain(w) && ResolveRef(ref, w).Resolved?
    ensures !Mentions(ResolveRef(ref, w).value)
  {
    if Has(ref, FROM) {
      var name := Text(Get(ref, FROM).value);
      LatestIsFromHistory(w.history, name);
      LatestIsFromHistory(w.history, Tail(name));
      var result := LatestResult(w.history, name).value;
      WalkKeepsPlain(result, Segments(PathText(ref)));
    } else if Has(ref, BIND) {
      WalkKeepsPlain(w.bindings[Get(ref, BIND).value.s], Segments(PathText(ref)));
    } else {
      var found := PropertyRef(w.properties, Text(Get(ref, PROP).value));
      FoundIsObserved(w.properties, Text(Get(ref, PROP).value), |Text(Get(ref, PROP).value)|);
      WalkKeepsPlain(found.value, Segments(JoinPath(found.residual, PathText(ref))));
    }
  }

  // ----- the resolver's guarantees ---------------------------------------------------------

  /** A value that is left unresolved still holds a reference: there is something to escalate. */
  lemma {:induction false} UnresolvedMentions(v: Value, w: World)
    ensures var r := ResolveNested(v, w);
            r.Grounded? && !r.ok ==> Mentions(r.value)
    decreases v, 1
  {
    if !IsReference(v) {
      match v
      case Dict(entries) => UnresolvedEntries(entries, w);
      case List(items) => UnresolvedItems(items, w);
      case _ =>
    }
  }

  lemma {:induction false} UnresolvedItems(items: seq<Value>, w: World)
    ensures var r := ResolveItems(items, w);
            r.GroundedList? && !r.ok ==> exists i :: 0 <= i < |r.items| && Mentions(r.items[i])
    decreases items, 0
  {
    if items != [] {
      var init := items[..|items| - 1];
      UnresolvedItems(init, w);
      UnresolvedMentions(items[|items| - 1], w);
      var r, q := ResolveItems(items, w), ResolveItems(init, w);
      if r.GroundedList? && !r.ok {
        if !q.ok {
          var i :| 0 <= i < |q.items| && Mentions(q.items[i]);
          assert r.items[i] == q.items[i];
        } else {
          assert Mentions(r.items[|init|]);
        }
      }
    }
  }

  lemma {:induction false} UnresolvedEntries(entries: seq<Entry>, w: World)
    ensures var r := ResolveEntries(entries, w);
            r.GroundedDict? && !r.ok ==> exists i :: 0 <= i < |r.entries| && Mentions(r.entries[i].value)
    decreases entries, 0
  {
    if entries != [] {
      var init := entries[..|entries| - 1];
      UnresolvedEntries(init, w);
      UnresolvedMentions(entries[|entries| - 1].value, w);
      var r, q := ResolveEntries(entries, w), ResolveEntries(init, w);
      if r.GroundedDict? && !r.ok {
        if !q.ok {
          var i :| 0 <= i < |q.entries| && Mentions(q.entries[i].value);
          assert r.entries[i] == q.entries[i];
        } else {
          assert Mentions(r.entries[|init|].value);
        }
      }
    }
  }

  lemma {:induction false} KeysDecideReference(a: seq<Entry>, b: seq<Entry>)
    requires |a| == |b| && forall i :: 0 <= i < |a| ==> a[i].key == b[i].key
    ensures forall key :: Lookup(a, key).Some? <==> Lookup(b, key).Some?
    ensures IsReference(Dict(a)) <==> IsReference(Dict(b))
  {
    forall key
      ensures Lookup(a, key).Some? <==> Lookup(b, key).Some?
    {
      if Lookup(a, key).Some? {
        var i :| 0 <= i < |a| && a[i].key == key;
        assert b[i].key == key;
      }
      if Lookup(b, key).Some? {
        var i :| 0 <= i < |b| && b[i].key == key;
        assert a[i].key == key;
      }
    }
    assert Lookup(a, FROM).Some? <==> Lookup(b, FROM).Some?;
  }

  /** Over plain sources, full resolution leaves no reference anywhere. */
  lemma {:induction false} ResolvedHasNoMention(v: Value, w: World)
    requires Plain(w)
    ensures var r := ResolveNested(v, w);
            r.Grounded? && r.ok ==> !Mentions(r.value)
    decreases v, 1
  {
    if IsReference(v) {
      if !Has(v, DECIDE) && ResolveRef(v, w).Resolved? {
        ResolvedIsPlain(v, w);
      }
    } else {
      match v
      case Dict(entries) =>
        ResolvedEntries(entries, w);
        var r := ResolveEntries(entries, w);
        if r.GroundedDict? {
          KeysDecideReference(entries, r.entries);
        }
      case List(items) =>
        ResolvedItems(items, w);
        var r := ResolveItems(items, w);
        if r.GroundedList? {
          assert !IsReference(List(r.items));
        }
      case _ =>
    }
  }

  lemma {:induction false} ResolvedItems(items: seq<Value>, w: World)
    requires Plain(w)
    ensures var r := ResolveItems(items, w);
            r.GroundedList? && r.ok ==> forall i :: 0 <= i < |r.items| ==> !Mentions(r.items[i])
    decreases items, 0
  {
    if items != [] {
      ResolvedItems(items[..|items| - 1], w);
      ResolvedHasNoMention(items[|items| - 1], w);
    }
  }

  lemma {:induction false} ResolvedEntries(entries: seq<Entry>, w: World)
    requires Plain(w)
    ensures var r := ResolveEntries(entries, w);
            r.GroundedDict? && r.ok ==> forall i :: 0 <= i < |r.entries| ==> !Mentions(r.entries[i].value)
    decreases entries, 0
  {
    if entries != [] {
      ResolvedEntries(entries[..|entries| - 1], w);
      ResolvedHasNoMention(entries[|entries| - 1].value, w);
    }
  }

  /** Nothing changes except reference nodes, and those only into what they resolve to. */
  ghost predicate OnlyReferencesChanged(before: Value, after: Value, w: World)
    decreases before, 1
  {
    if IsReference(before) then
      after == before || (!Has(before, DECIDE) && ResolveRef(before, w) == Resolved(after))
    else
      match before
      case Dict(entries) =>
        && after.Dict? && |after.entries| == |entries|
        && (forall i :: 0 <= i < |entries| ==>
              after.entries[i].key == entries[i].key
                && OnlyReferencesChanged(entries[i].value, after.entries[i].value, w))
      case List(items) =>
        && after.List? && |after.items| == |items|
        && (forall i :: 0 <= i < |items| ==> OnlyReferencesChanged(items[i], after.items[i], w))
      case _ => after == before
  }

  lemma {:induction false} ResolutionIsLocal(v: Value, w: World)
    requires ResolveNested(v, w).Grounded?
    ensures OnlyReferencesChanged(v, ResolveNested(v, w).value, w)
    decreases v, 1
  {
    if !IsReference(v) {
      match v
      case Dict(entries) => LocalEntries(entries, w);
      case List(items) => LocalItems(items, w);
      case _ =>
    }
  }

  lemma {:induction false} LocalItems(items: seq<Value>, w: World)
    requires ResolveItems(items, w).GroundedList?
    ensures forall i :: 0 <= i < |items| ==> OnlyReferencesChanged(items[i], ResolveItems(items, w).items[i], w)
    decreases items, 0
  {
    if items != [] {
      LocalItems(items[..|items| - 1], w);
      ResolutionIsLocal(items[|items| - 1], w);
    }
  }

  lemma {:induction false} LocalEntries(entries: seq<Entry>, w: World)
    requires ResolveEntries(entries, w).GroundedDict?
    ensures forall i :: 0 <= i < |entries| ==>
              OnlyReferencesChanged(entries[i].value, ResolveEntries(entries, w).entries[i].value, w)
    decreases entries, 0
  {
    if entries != [] {
      LocalEntries(entries[..|entries| - 1], w);
      ResolutionIsLocal(entries[|entries| - 1].value, w);
    }
  }

  // ----- a step's parameters ---------------------------------------------------------------

  datatype Resolution = Resolution(resolved: seq<Entry>, unresolved: seq<string>) | Failure

  predicate Blocked(v: Value, w: World) {
    var r := ResolveNested(v, w);
    r.Grounded? && !r.ok
  }

  /** One of the first `n` parameters has this key and a value that could not be resolved. */
  ghost predicate HeldBack(params: seq<Entry>, w: World, n: nat, key: string)
    requires n <= |params|
  {
    exists i :: 0 <= i < n && params[i].key == key && Blocked(params[i].value, w)
  }

  /** The reported keys are exactly those held back among the first `n` parameters. */
  ghost predicate Reported(params: seq<Entry>, w: World, n: nat, unresolved: seq<string>)
    requires n <= |params|
  {
    forall key :: key in unresolved <==> HeldBack(params, w, n, key)
  }

  lemma ReportedNext(params: seq<Entry>, w: World, k: nat, unresolved: seq<string>)
    requires k < |params| && Reported(params, w, k, unresolved)
    ensures Blocked(params[k].value, w) ==> Reported(params, w, k + 1, unresolved + [params[k].key])
    ensures !Blocked(params[k].value, w) ==> Reported(params, w, k + 1, unresolved)
  {
    forall key
      ensures HeldBack(params, w, k + 1, key) <==>
                HeldBack(params, w, k, key) || (params[k].key == key && Blocked(params[k].value, w))
    {
      if HeldBack(params, w, k + 1, key) {
        var i :| 0 <= i < k + 1 && params[i].key == key && Blocked(params[i].value, w);
        assert i < k || i == k;
      }
    }
  }

  /** The first `n` parameters, each with its value resolved on its own. */
  ghost predicate Settled(params: seq<Entry>, w: World, n: nat, resolved: seq<Entry>)
    requires n <= |params|
  {
    |resolved| == n && forall i :: 0 <= i < n ==>
      var got := ResolveNested(params[i].value, w);
      got.Grounded? && resolved[i] == Entry(params[i].key, got.value)
  }

  lemma SettledNext(params: seq<Entry>, w: World, k: nat, resolved: seq<Entry>, got: Grounded)
    requires k < |params| && Settled(params, w, k, resolved)
    requires ResolveNested(params[k].value, w) == got && got.Grounded?
    ensures Settled(params, w, k + 1, resolved + [Entry(params[k].key, got.value)])
  {
  }

  /** What a call gets back: every parameter resolved in place, and exactly the keys held back. */
  ghost predicate Accounts(params: seq<Entry>, w: World, resolved: seq<Entry>, unresolved: seq<string>) {
    Settled(params, w, |params|, resolved) && Reported(params, w, |params|, unresolved)
  }

  /** Resolve every parameter; the keys still holding something unresolved are named for escalation. */
  method ResolveReferences(params: seq<Entry>, w: World) returns (r: Resolution)
    ensures r.Failure? <==> exists i :: 0 <= i < |params| && ResolveNested(params[i].value, w).Raised?
    ensures r.Resolution? ==> Accounts(params, w, r.resolved, r.unresolved)
  {
    var resolved: seq<Entry>, unresolved: seq<string> := [], [];
    for k := 0 to |params|
      invariant Settled(params, w, k, resolved)
      invariant Reported(params, w, k, unresolved)
    {
      var got := ResolveNested(params[k].value, w);
      if got.Raised? {
        return Failure;
      }
      SettledNext(params, w, k, resolved, got);
      ReportedNext(params, w, k, unresolved);
      resolved := resolved + [Entry(params[k].key, got.value)];
      if !got.ok {
        unresolved := unresolved + [params[k].key];
      }
    }
    return Resolution(resolved, unresolved);
  }

  /**
   * Over plain sources a parameter is reported unresolved exactly when the leak guard would still
   * find a reference in it, at any depth.
   */
  lemma UnresolvedIffLeak(v: Value, w: World)
    requires Plain(w) && ResolveNested(v, w).Grounded?
    ensures var r := ResolveNested(v, w);
            !r.ok <==> ReferencePaths(r.value, []) != []
  {
    UnresolvedMentions(v, w);
    ResolvedHasNoMention(v, w);
    NoPathsIffNoMention(ResolveNested(v, w).value, []);
  }

  /**
   * The guard reads a call's parameters as one mapping. Over plain sources it is silent exactly when
   * nothing was reported unresolved and the parameters' own names do not spell a reference.
   */
  lemma CallIffLeak(params: seq<Entry>, w: World, resolved: seq<Entry>, unresolved: seq<string>)
    requires Plain(w) && Accounts(params, w, resolved, unresolved)
    ensures ReferencePaths(Dict(resolved), []) == [] <==> unresolved == [] && !IsReference(Dict(params))
  {
    forall i | 0 <= i < |params|
      ensures Mentions(resolved[i].value) <==> Blocked(params[i].value, w)
    {
      UnresolvedMentions(params[i].value, w);
      ResolvedHasNoMention(params[i].value, w);
    }
    NothingHeldBack(params, w, unresolved);
    KeysDecideReference(params, resolved);
    NoPathsIffNoMention(Dict(resolved), []);
  }

  lemma NothingHeldBack(params: seq<Entry>, w: World, unresolved: seq<string>)
    requires Reported(params, w, |params|, unresolved)
    ensures unresolved == [] <==> forall i :: 0 <= i < |params| ==> !Blocked(params[i].value, w)
  {
    if unresolved != [] {
      assert unresolved[0] in unresolved;
    } else {
      forall i | 0 <= i < |params|
        ensures !Blocked(params[i].value, w)
      {
        assert params[i].key !in unresolved;
      }
    }
  }

  /** A parameter whose name spells a reference: everything resolves, and the guard objects. */
  lemma ReferenceNamedParameterLeaks()
    ensures var params := [Entry(BIND, Num(1))];
            var w := World([], map[], []);
            Plain(w) && Accounts(params, w, params, []) && ReferencePaths(Dict(params), []) == [[]]
  {
    var params := [Entry(BIND, Num(1))];
    var w := World([], map[], []);
    assert !IsReference(Num(1)) && ResolveNested(Num(1), w) == Grounded(Num(1), true);
    forall key
      ensures !HeldBack(params, w, |params|, key)
    {
    }
    assert Get(Dict(params), BIND) == Some(Num(1));
  }

  /** Without that: a binding that holds reference-shaped data resolves, and the leak guard objects. */
  lemma ReferenceShapedDataLeaks()
    ensures var data := Dict([Entry(BIND, Str("other"))]);
            var w := World([], map["x" := data], []);
            ResolveNested(Dict([Entry(BIND, Str("x"))]), w) == Grounded(data, true)
            && ReferencePaths(data, []) != []
  {
    var data := Dict([Entry(BIND, Str("other"))]);
    var ref := Dict([Entry(BIND, Str("x"))]);
    assert Get(ref, BIND) == Some(Str("x")) && !Has(ref, FROM) && !Has(ref, DECIDE);
    assert Has(data, BIND);
    assert Segments("") == [];
  }

  // ----- when resolution raises ------------------------------------------------------------

  /** A present `$from` or `$bind` source whose `path` is not a string. */
  predicate Unsplittable(ref: Value, w: World) {
    && !Has(ref, DECIDE)
    && Get(ref, PATH).Some? && !Get(ref, PATH).value.Str?
    && (if Has(ref, FROM) then LatestResult(w.history, Text(Get(ref, FROM).value)).Some?
        else Has(ref, BIND) && Get(ref, BIND).value.Str? && Get(ref, BIND).value.s in w.bindings)
  }

  predicate HoldsUnsplittable(v: Value, w: World)
    decreases v, 1
  {
    if IsReference(v) then Unsplittable(v, w)
    else
      match v
      case Dict(entries) => exists i :: 0 <= i < |entries| && HoldsUnsplittable(entries[i].value, w)
      case List(items) => exists i :: 0 <= i < |items| && HoldsUnsplittable(items[i], w)
      case _ => false
  }

  /**
   * Resolution is meant never to raise on a bad path. It does, exactly when some reference with a
   * present source spells its path as anything but a string.
   */
  lemma {:induction false} RaisesIffUnsplittable(v: Value, w: World)
    ensures ResolveNested(v, w).Raised? <==> HoldsUnsplittable(v, w)
    decreases v, 1
  {
    if IsReference(v) {
    } else {
      match v
      case Dict(entries) => RaisesInEntries(entries, w);
      case List(items) => RaisesInItems(items, w);
      case _ =>
    }
  }

  lemma {:induction false} RaisesInItems(items: seq<Value>, w: World)
    ensures ResolveItems(items, w).ListRaised? <==> exists i :: 0 <= i < |items| && HoldsUnsplittable(items[i], w)
    decreases items, 0
  {
    if items != [] {
      RaisesInItems(items[..|items| - 1], w);
      RaisesIffUnsplittable(items[|items| - 1], w);
      ExistsSnoc(items, items[..|items| - 1], (v: Value) => HoldsUnsplittable(v, w));
    }
  }

  lemma {:induction false} RaisesInEntries(entries: seq<Entry>, w: World)
    ensures ResolveEntries(entries, w).DictRaised? <==>
              exists i :: 0 <= i < |entries| && HoldsUnsplittable(entries[i].value, w)
    decreases entries, 0
  {
    if entries != [] {
      RaisesInEntries(entries[..|entries| - 1], w);
      RaisesIffUnsplittable(entries[|entries| - 1].value, w);
      ExistsSnoc(entries, entries[..|entries| - 1], (e: Entry) => HoldsUnsplittable(e.value, w));
    }
  }

  /** The input that shows it: `{"$bind": "x", "path": 0}` with `x` bound to a one-element list. */
  lemma NumericPathRaises()
    ensures var ref := Dict([Entry(BIND, Str("x")), Entry(PATH, Num(0))]);
            ResolveNested(ref, World([], map["x" := List([Num(7)])], [])).Raised?
  {
    var ref := Dict([Entry(BIND, Str("x")), Entry(PATH, Num(0))]);
    assert ref.entries[1..] == [Entry(PATH, Num(0))] && |BIND| != |PATH|;
    assert Lookup(ref.entries, PATH) == Lookup(ref.entries[1..], PATH);
    assert Get(ref, BIND) == Some(Str("x")) && Get(ref, PATH) == Some(Num(0));
    assert !Has(ref, FROM) && !Has(ref, DECIDE);
  }
}
