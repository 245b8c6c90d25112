/** Paths: read and written by one pattern, under a base they are mounted at. */
module Routing {
  import opened Options
  import opened Percent

  type Params = map<string, string>

  datatype Segment = Literal(text: string) | Param(name: string)

  datatype Pattern = Pattern(source: string, segments: seq<Segment>)

  // ---------- Splitting and joining ----------

  /** The parts between slashes, with those that are nothing. */
  function Parts(path: string): (ps: seq<string>)
    ensures ps != []
  {
    if path == "" then [""] else Led(path[0], Parts(path[1..]))
  }

  /** With one character more before them. */
  function Led(c: char, ps: seq<string>): (led: seq<string>)
    requires ps != []
    ensures led != []
  {
    if c == '/' then [""] + ps else [[c] + ps[0]] + ps[1..]
  }

  lemma LedJoins(c: char, a: seq<string>, b: seq<string>)
    requires a != []
    ensures Led(c, a + b) == Led(c, a) + b
  {
  }

  function NotEmpty(ps: seq<string>): seq<string> {
    if ps == [] then [] else (if ps[0] == "" then [] else [ps[0]]) + NotEmpty(ps[1..])
  }

  function Split(path: string): seq<string> {
    NotEmpty(Parts(path))
  }

  /** Each part after a slash. */
  function Slashed(ps: seq<string>): string {
    if ps == [] then "" else "/" + ps[0] + Slashed(ps[1..])
  }

  function Joined(ps: seq<string>): string {
    if ps == [] then "/" else Slashed(ps)
  }

  function Normalise(path: string): string {
    Joined(Split(path))
  }

  function StripBase(base: string, path: string): string {
    var b, p := Normalise(base), Normalise(path);
    if b == "/" then p
    else if p == b then "/"
    else if b + "/" <= p then Normalise(p[|b|..])
    else p
  }

  function WithBase(base: string, path: string): string {
    var b, p := Normalise(base), Normalise(path);
    if b == "/" then p else if p == "/" then b + "/" else b + p
  }

  // ---------- What splitting undoes ----------

  ghost predicate Unslashed(ps: seq<string>) {
    forall i :: 0 <= i < |ps| ==> '/' !in ps[i]
  }

  /** Parts as splitting gives them: none with a slash, and none empty. */
  ghost predicate Whole(ps: seq<string>) {
    Unslashed(ps) && forall i :: 0 <= i < |ps| ==> ps[i] != ""
  }

  /** A slash ends what is before it. */
  lemma {:induction false} PartsAtSlash(a: string, rest: string)
    ensures Parts(a + "/" + rest) == Parts(a) + Parts(rest)
    decreases |a|
  {
    var s := a + "/" + rest;
    if a == "" {
      assert s[0] == '/' && s[1..] == rest;
    } else {
      PartsAtSlash(a[1..], rest);
      assert s[1..] == a[1..] + "/" + rest && s[0] == a[0];
      LedJoins(a[0], Parts(a[1..]), Parts(rest));
      hide Led;
    }
  }

  lemma {:induction false} PartsOfOne(a: string)
    requires '/' !in a
    ensures Parts(a) == [a]
  {
    if a != "" {
      PartsOfOne(a[1..]);
      assert [a[0]] + a[1..] == a;
    }
  }

  lemma {:induction false} NotEmptyJoins(a: seq<string>, b: seq<string>)
    ensures NotEmpty(a + b) == NotEmpty(a) + NotEmpty(b)
  {
    if a == [] {
      assert a + b == b;
    } else {
      assert (a + b)[1..] == a[1..] + b;
      NotEmptyJoins(a[1..], b);
    }
  }

  /** Two paths with a slash between split as each does. */
  lemma SplitAtSlash(a: string, rest: string)
    ensures Split(a + "/" + rest) == Split(a) + Split(rest)
  {
    PartsAtSlash(a, rest);
    NotEmptyJoins(Parts(a), Parts(rest));
  }

  lemma SplitOfOne(a: string)
    requires '/' !in a
    ensures Split(a) == if a == "" then [] else [a]
  {
    PartsOfOne(a);
    assert [a][1..] == [] && NotEmpty([a][1..]) == [];
    assert (if a == "" then [] else [a]) + [] == if a == "" then [] else [a];
  }

  /** What is joined begins with a slash, if it is anything. */
  lemma SplitBefore(a: string, ps: seq<string>)
    ensures Split(a + Slashed(ps)) == Split(a) + Split(Slashed(ps))
  {
    SplitOfOne("");
    if ps == [] {
      assert a + Slashed(ps) == a;
    } else {
      var after := ps[0] + Slashed(ps[1..]);
      assert Slashed(ps) == "" + "/" + after && a + Slashed(ps) == a + "/" + after;
      SplitAtSlash(a, after);
      SplitAtSlash("", after);
    }
  }

  lemma {:induction false} SplitSlashed(ps: seq<string>)
    requires Unslashed(ps)
    ensures Split(Slashed(ps)) == NotEmpty(ps)
  {
    hide Split, Parts;
    SplitOfOne("");
    if ps != [] {
      var rest := Slashed(ps[1..]);
      SplitSlashed(ps[1..]);
      SplitOfOne(ps[0]);
      assert Slashed(ps) == "" + "/" + (ps[0] + rest);
      hide Slashed;
      SplitAtSlash("", ps[0] + rest);
      SplitBefore(ps[0], ps[1..]);
      assert [] + Split(ps[0] + rest) == Split(ps[0] + rest);
    }
  }

  lemma {:induction false} NotEmptyAll(ps: seq<string>)
    ensures |NotEmpty(ps)| <= |ps|
    ensures |NotEmpty(ps)| == |ps| <==> forall i :: 0 <= i < |ps| ==> ps[i] != ""
    ensures |NotEmpty(ps)| == |ps| ==> NotEmpty(ps) == ps
  {
    if ps != [] {
      NotEmptyAll(ps[1..]);
      assert forall i :: 0 < i < |ps| ==> ps[i] == ps[1..][i - 1];
    }
  }

  lemma {:induction false} PartsUnslashed(path: string)
    ensures Unslashed(Parts(path))
  {
    if path != "" {
      PartsUnslashed(path[1..]);
    }
  }

  lemma {:induction false} NotEmptyWhole(ps: seq<string>)
    requires Unslashed(ps)
    ensures Whole(NotEmpty(ps))
  {
    if ps != [] {
      assert forall i :: 0 <= i < |ps[1..]| ==> ps[1..][i] == ps[i + 1];
      NotEmptyWhole(ps[1..]);
    }
  }

  lemma SplitWhole(path: string)
    ensures Whole(Split(path))
  {
    PartsUnslashed(path);
    NotEmptyWhole(Parts(path));
  }

  /** Splitting gives back the parts that were joined. */
  lemma SplitJoined(ps: seq<string>)
    requires Whole(ps)
    ensures Split(Joined(ps)) == ps
  {
    if ps == [] {
      assert "/" == "" + "/" + "";
      SplitAtSlash("", "");
      SplitOfOne("");
    } else {
      SplitSlashed(ps);
      NotEmptyAll(ps);
    }
  }

  lemma SplitNormalised(path: string)
    ensures Split(Normalise(path)) == Split(path)
  {
    SplitWhole(path);
    SplitJoined(Split(path));
  }

  /** Normalising again changes nothing. */
  lemma NormaliseTwice(path: string)
    ensures Normalise(Normalise(path)) == Normalise(path)
  {
    SplitNormalised(path);
  }

  /** Two paths are the same when normalised exactly when they have the same parts. */
  lemma NormalisedAlike(p: string, q: string)
    ensures Normalise(p) == Normalise(q) <==> Split(p) == Split(q)
  {
    SplitNormalised(p);
    SplitNormalised(q);
  }

  // ---------- The base ----------

  lemma {:induction false} SlashedJoins(a: seq<string>, b: seq<string>)
    ensures Slashed(a + b) == Slashed(a) + Slashed(b)
  {
    if a == [] {
      assert a + b == b;
    } else {
      assert (a + b)[1..] == a[1..] + b;
      SlashedJoins(a[1..], b);
    }
  }

  /** Stripping takes the base's parts off a path that begins with them, whole part by
      whole part, and leaves any other path as it is. */
  lemma StripsWholeParts(base: string, path: string)
    ensures
      var bs, ps := Split(base), Split(path);
      StripBase(base, path) == if bs <= ps then Joined(ps[|bs|..]) else Joined(ps)
  {
    var bs, ps := Split(base), Split(path);
    var b, p := Joined(bs), Joined(ps);
    SplitWhole(base);
    SplitWhole(path);
    hide Split, Slashed;
    if bs == [] {
      assert ps[0..] == ps;
    } else {
      BaseIsNotRoot(bs);
      if bs <= ps {
        StripsThem(bs, ps);
      } else {
        NotStripped(bs, ps);
      }
    }
  }

  lemma BaseIsNotRoot(bs: seq<string>)
    requires Whole(bs) && bs != []
    ensures Joined(bs) != "/" && Joined(bs) == Slashed(bs)
  {
    SplitJoined(bs);
    SplitJoined([]);
  }

  lemma StripsThem(bs: seq<string>, ps: seq<string>)
    requires Whole(bs) && Whole(ps) && bs != [] && bs <= ps
    ensures
      var b, p, rest := Joined(bs), Joined(ps), ps[|bs|..];
      if rest == [] then p == b
      else p != b && b + "/" <= p && Normalise(p[|b|..]) == Joined(rest)
  {
    var rest := ps[|bs|..];
    assert ps == bs + rest;
    SlashedJoins(bs, rest);
    if rest != [] {
      assert Slashed(ps)[|Slashed(bs)|..] == Slashed(rest);
      assert Slashed(rest)[0] == '/';
      assert Whole(rest);
      SplitJoined(rest);
    }
  }

  lemma NotStripped(bs: seq<string>, ps: seq<string>)
    requires Whole(bs) && Whole(ps) && bs != [] && !(bs <= ps)
    ensures Joined(ps) != Joined(bs) && !(Joined(bs) + "/" <= Joined(ps))
  {
    SplitJoined(bs);
    SplitJoined(ps);
    hide Joined, Split;
    if Joined(bs) + "/" <= Joined(ps) {
      BeginsWithParts(Joined(bs), Joined(ps));
    }
  }

  lemma BeginsWithParts(b: string, p: string)
    requires b + "/" <= p
    ensures Split(b) <= Split(p)
  {
    var rest := p[|b| + 1..];
    assert p == b + "/" + rest;
    hide Split;
    SplitAtSlash(b, rest);
  }

  lemma WithBaseParts(base: string, path: string)
    ensures Split(WithBase(base, path)) == Split(base) + Split(path)
  {
    var bs, ps := Split(base), Split(path);
    var b, p := Normalise(base), Normalise(path);
    SplitNormalised(base);
    SplitNormalised(path);
    SplitWhole(base);
    SplitWhole(path);
    if bs == [] {
      assert bs + ps == ps;
    } else {
      BaseIsNotRoot(bs);
      if ps == [] {
        assert b + "/" == b + "/" + "";
        SplitAtSlash(b, "");
        SplitOfOne("");
      } else {
        BaseIsNotRoot(ps);
        SlashedJoins(bs, ps);
        assert Whole(bs + ps);
        SplitJoined(bs + ps);
      }
    }
  }

  /** A path mounted is written out whole: the base's parts and its own, each after one
      slash; with none of its own, a slash after the base. */
  lemma MountedIs(base: string, path: string)
    ensures
      var bs, ps := Split(base), Split(path);
      WithBase(base, path) == if ps != [] then Joined(bs + ps) else if bs == [] then "/" else Joined(bs) + "/"
  {
    var bs, ps := Split(base), Split(path);
    SplitWhole(base);
    SplitWhole(path);
    hide Split;
    if bs == [] {
      assert bs + ps == ps;
    } else {
      BaseIsNotRoot(bs);
      if ps != [] {
        BaseIsNotRoot(ps);
        SlashedJoins(bs, ps);
      }
    }
  }

  /** Stripping a base undoes putting it on. */
  lemma StripUndoesWith(base: string, path: string)
    ensures StripBase(base, WithBase(base, path)) == Normalise(path)
  {
    WithBaseParts(base, path);
    StripsWholeParts(base, WithBase(base, path));
    assert (Split(base) + Split(path))[|Split(base)|..] == Split(path);
  }

  /** And putting it on undoes stripping it, for a path under it. */
  lemma WithUndoesStrip(base: string, path: string)
    requires Split(base) <= Split(path)
    ensures Normalise(WithBase(base, StripBase(base, path))) == Normalise(path)
  {
    var bs, ps := Split(base), Split(path);
    var rest := ps[|bs|..];
    StripsWholeParts(base, path);
    SplitWhole(path);
    assert Whole(rest);
    SplitJoined(rest);
    WithBaseParts(base, Joined(rest));
    assert bs + rest == ps;
  }

  // ---------- Patterns ----------

  function SegmentOf(text: string): Segment {
    if text != "" && text[0] == ':' then Param(text[1..]) else Literal(text)
  }

  function SegmentsOf(ps: seq<string>): (segs: seq<Segment>)
    ensures |segs| == |ps| && forall i :: 0 <= i < |ps| ==> segs[i] == SegmentOf(ps[i])
  {
    seq(|ps|, i requires 0 <= i < |ps| => SegmentOf(ps[i]))
  }

  function Compiled(source: string): Pattern {
    Pattern(source, SegmentsOf(Split(source)))
  }

  /** A pattern's literals are whole parts. */
  ghost predicate Valid(p: Pattern) {
    forall i :: 0 <= i < |p.segments| && p.segments[i].Literal? ==>
      p.segments[i].text != "" && '/' !in p.segments[i].text
  }

  lemma CompiledIsValid(source: string)
    ensures Valid(Compiled(source))
  {
    SplitWhole(source);
  }

  /** Decoded, or left as written if an escape in it is malformed. */
  function Read(part: string): string {
    match Decode(part)
    case Some(s) => s
    case None => part
  }

  /** The params drawn from the first `n` parts, if the literals among them match. */
  function Drawn(segs: seq<Segment>, parts: seq<string>, n: nat): Option<Params>
    requires n <= |segs| && n <= |parts|
  {
    if n == 0 then Some(map[])
    else
      match Drawn(segs, parts, n - 1)
      case None => None
      case Some(params) =>
        match segs[n - 1]
        case Literal(text) => if text == parts[n - 1] then Some(params) else None
        case Param(name) => Some(params[name := Read(parts[n - 1])])
  }

  function Matched(p: Pattern, path: string): Option<Params> {
    var parts := Split(path);
    if |parts| != |p.segments| then None else Drawn(p.segments, parts, |parts|)
  }

  method Match(p: Pattern, path: string) returns (r: Option<Params>)
    ensures r == Matched(p, path)
  {
    var parts := Split(path);
    if |parts| != |p.segments| {
      return None;
    }
    var params: Params := map[];
    for i := 0 to |parts|
      invariant Drawn(p.segments, parts, i) == Some(params)
    {
      match p.segments[i] {
        case Literal(text) =>
          if text != parts[i] {
            DrawnNone(p.segments, parts, i + 1, |parts|);
            return None;
          }
        case Param(name) =>
          params := params[name := Read(parts[i])];
      }
    }
    r := Some(params);
  }

  lemma {:induction false} DrawnNone(segs: seq<Segment>, parts: seq<string>, i: nat, n: nat)
    requires i <= n <= |segs| && n <= |parts| && Drawn(segs, parts, i) == None
    ensures Drawn(segs, parts, n) == None
  {
    if i < n {
      DrawnNone(segs, parts, i, n - 1);
    }
  }

  function NamesTo(segs: seq<Segment>, n: nat): set<string>
    requires n <= |segs|
  {
    if n == 0 then {} else NamesTo(segs, n - 1) + if segs[n - 1].Param? then {segs[n - 1].name} else {}
  }

  function Names(segs: seq<Segment>): set<string> {
    NamesTo(segs, |segs|)
  }

  lemma {:induction false} NamedIn(segs: seq<Segment>, n: nat)
    requires n <= |segs|
    ensures forall i :: 0 <= i < n && segs[i].Param? ==> segs[i].name in NamesTo(segs, n)
    ensures forall name :: name in NamesTo(segs, n) ==> exists i :: 0 <= i < n && segs[i] == Param(name)
  {
    if n > 0 {
      NamedIn(segs, n - 1);
      forall name | name in NamesTo(segs, n)
        ensures exists i :: 0 <= i < n && segs[i] == Param(name)
      {
        if name in NamesTo(segs, n - 1) {
          var i :| 0 <= i < n - 1 && segs[i] == Param(name);
        } else {
          assert segs[n - 1] == Param(name);
        }
      }
    }
  }

  function Written(seg: Segment, params: Params): string
    requires seg.Param? ==> seg.name in params
  {
    match seg
    case Literal(text) => text
    case Param(name) => Encode(params[name])
  }

  function AllWritten(segs: seq<Segment>, params: Params): (parts: seq<string>)
    requires Names(segs) <= params.Keys
    ensures |parts| == |segs|
    ensures forall i :: 0 <= i < |segs| ==>
      (segs[i].Param? ==> segs[i].name in params) && parts[i] == Written(segs[i], params)
  {
    NamesIn(segs, params);
    seq(|segs|, i requires 0 <= i < |segs| => Written(segs[i], params))
  }

  lemma NamesIn(segs: seq<Segment>, params: Params)
    requires Names(segs) <= params.Keys
    ensures forall i :: 0 <= i < |segs| && segs[i].Param? ==> segs[i].name in params
  {
    NamedIn(segs, |segs|);
  }

  /** The path a pattern names with these params; `None` where the source throws, a param missing. */
  function Build(p: Pattern, params: Params): Option<string> {
    if Names(p.segments) <= params.Keys then Some(Joined(AllWritten(p.segments, params))) else None
  }

  // ---------- Building and matching undo each other ----------

  /** The pattern's own params. */
  function OwnParams(p: Pattern, params: Params): Params
    requires Names(p.segments) <= params.Keys
  {
    map name | name in Names(p.segments) :: params[name]
  }

  lemma WrittenRead(seg: Segment, params: Params)
    requires seg.Param? && seg.name in params
    ensures Read(Written(seg, params)) == params[seg.name]
  {
    DecodeUndoes(params[seg.name]);
  }

  /** What is drawn has just these names, each with its param. */
  ghost predicate Gives(r: Option<Params>, names: set<string>, params: Params) {
    r.Some? && r.value.Keys == names && forall name :: name in names ==> name in params && r.value[name] == params[name]
  }

  lemma GivesOneMore(r: Option<Params>, names: set<string>, params: Params, name: string)
    requires Gives(r, names, params) && name in params
    ensures Gives(Some(r.value[name := params[name]]), names + {name}, params)
  {
  }

  lemma {:induction false} DrawnBack(segs: seq<Segment>, params: Params, n: nat)
    requires Names(segs) <= params.Keys && n <= |segs|
    ensures Gives(Drawn(segs, AllWritten(segs, params), n), NamesTo(segs, n), params)
  {
    if n > 0 {
      var before, names := Drawn(segs, AllWritten(segs, params), n - 1), NamesTo(segs, n - 1);
      DrawnBack(segs, params, n - 1);
      NamesIn(segs, params);
      assert before.Some? && names + {} == names;
      hide Encode, Read, Gives, Names;
      if segs[n - 1].Param? {
        WrittenRead(segs[n - 1], params);
        GivesOneMore(before, names, params, segs[n - 1].name);
      }
    }
  }

  lemma WrittenWhole(p: Pattern, params: Params)
    requires Valid(p) && Names(p.segments) <= params.Keys
    ensures Unslashed(AllWritten(p.segments, params))
    ensures Whole(AllWritten(p.segments, params)) <==> forall name :: name in Names(p.segments) ==> params[name] != ""
  {
    var segs, parts := p.segments, AllWritten(p.segments, params);
    hide Encode;
    forall i | 0 <= i < |segs|
      ensures '/' !in parts[i]
      ensures parts[i] == "" <==> segs[i].Param? && params[segs[i].name] == ""
    {
      if segs[i].Param? {
        EncodeHasNoSlash(params[segs[i].name]);
      }
    }
    NamedIn(segs, |segs|);
  }

  /** A path built matches its own pattern, and gives back the params it was built
      with, exactly when none of them is empty. */
  lemma MatchUndoesBuild(p: Pattern, params: Params)
    requires Valid(p) && Names(p.segments) <= params.Keys
    ensures Build(p, params).Some?
    ensures Matched(p, Build(p, params).value) == Some(OwnParams(p, params))
       <==> forall name :: name in Names(p.segments) ==> params[name] != ""
  {
    var parts := AllWritten(p.segments, params);
    WrittenWhole(p, params);
    hide Split, Names, AllWritten;
    if Whole(parts) {
      SplitJoined(parts);
      DrawnBackWhole(p, params);
    } else {
      assert parts != [];
      SplitSlashed(parts);
      NotEmptyAll(parts);
    }
  }

  /** As when the pattern is one param and it is given the empty text: `/` is built,
      which has no part to match it. */
  lemma EmptyParamIsLost()
    ensures
      var p, params := Pattern("/:id", [Param("id")]), map["id" := ""];
      && Valid(p) && Names(p.segments) <= params.Keys
      && Build(p, params).Some? && Matched(p, Build(p, params).value) == None
  {
    var p, params := Pattern("/:id", [Param("id")]), map["id" := ""];
    NamedIn(p.segments, 1);
    assert AllWritten(p.segments, params) == [""];
    SplitSlashed([""]);
  }

  lemma DrawnBackWhole(p: Pattern, params: Params)
    requires Names(p.segments) <= params.Keys
    ensures Drawn(p.segments, AllWritten(p.segments, params), |p.segments|) == Some(OwnParams(p, params))
  {
    DrawnBack(p.segments, params, |p.segments|);
    hide Drawn, AllWritten, NamesTo;
    var own := OwnParams(p, params);
    var r := Drawn(p.segments, AllWritten(p.segments, params), |p.segments|);
    assert r.value.Keys == own.Keys;
    assert r.value == own;
  }

  lemma ReadSomething(part: string)
    requires part != ""
    ensures Read(part) != ""
  {
    DecodeSomething(part);
  }

  lemma {:induction false} DrawnNames(segs: seq<Segment>, parts: seq<string>, n: nat)
    requires n <= |segs| && n <= |parts| && Drawn(segs, parts, n).Some?
    requires forall i :: 0 <= i < |parts| ==> parts[i] != ""
    ensures
      var params := Drawn(segs, parts, n).value;
      params.Keys == NamesTo(segs, n) && forall name :: name in params ==> params[name] != ""
  {
    if n > 0 {
      DrawnNames(segs, parts, n - 1);
      ReadSomething(parts[n - 1]);
      hide Read;
    }
  }

  /** Whatever a pattern draws from a path builds a path that it draws the same from. */
  lemma MatchedBuildsBack(p: Pattern, path: string)
    requires Valid(p) && Matched(p, path).Some?
    ensures
      var params := Matched(p, path).value;
      Build(p, params).Some? && Matched(p, Build(p, params).value) == Some(params)
  {
    var params, parts := Matched(p, path).value, Split(path);
    SplitWhole(path);
    DrawnNames(p.segments, parts, |parts|);
    assert params.Keys == Names(p.segments);
    MatchUndoesBuild(p, params);
    assert OwnParams(p, params) == params;
  }

  // ---------- What a pattern says ----------

  /** A part that begins with a colon is a param, named by the rest of it; any other is
      itself. */
  lemma CompiledIs(ps: seq<string>)
    requires Whole(ps)
    ensures
      var segs := Compiled(Joined(ps)).segments;
      && |segs| == |ps|
      && forall i :: 0 <= i < |ps| ==>
           ps[i] != "" && segs[i] == if ps[i][0] == ':' then Param(ps[i][1..]) else Literal(ps[i])
  {
    SplitJoined(ps);
    NotEmptyAll(ps);
  }

  /** The last param of its name. */
  ghost predicate LastNamed(segs: seq<Segment>, i: nat, n: nat, name: string)
    requires n <= |segs|
  {
    i < n && segs[i] == Param(name) && forall j :: i < j < n ==> segs[j] != Param(name)
  }

  lemma {:induction false} DrawnExactly(segs: seq<Segment>, parts: seq<string>, n: nat)
    requires n <= |segs| && n <= |parts|
    ensures Drawn(segs, parts, n).Some? <==> forall i :: 0 <= i < n && segs[i].Literal? ==> segs[i].text == parts[i]
    ensures Drawn(segs, parts, n).Some? ==>
      && Drawn(segs, parts, n).value.Keys == NamesTo(segs, n)
      && forall i, name :: 0 <= i < n && LastNamed(segs, i, n, name) ==>
           name in Drawn(segs, parts, n).value && Drawn(segs, parts, n).value[name] == Read(parts[i])
  {
    if n > 0 {
      DrawnExactly(segs, parts, n - 1);
      hide Read;
      if Drawn(segs, parts, n).Some? {
        forall i, name | 0 <= i < n && LastNamed(segs, i, n, name)
          ensures name in Drawn(segs, parts, n).value && Drawn(segs, parts, n).value[name] == Read(parts[i])
        {
          assert i < n - 1 ==> LastNamed(segs, i, n - 1, name);
        }
      }
    }
  }

  /** A path matches exactly when it has as many parts as the pattern and each literal is
      its part, to the letter. Each param is its part decoded, or as written where that
      cannot be; of two of one name, the later. */
  lemma MatchesExactly(p: Pattern, path: string)
    ensures
      var parts := Split(path);
      Matched(p, path).Some? <==>
        |parts| == |p.segments|
        && forall i :: 0 <= i < |parts| && p.segments[i].Literal? ==> p.segments[i].text == parts[i]
    ensures
      var parts := Split(path);
      Matched(p, path).Some? ==>
        && Matched(p, path).value.Keys == Names(p.segments)
        && forall i, name :: 0 <= i < |parts| && LastNamed(p.segments, i, |parts|, name) ==>
             name in Matched(p, path).value
             && Matched(p, path).value[name] == if Decode(parts[i]).Some? then Decode(parts[i]).value else parts[i]
  {
    var parts := Split(path);
    if |parts| == |p.segments| {
      DrawnExactly(p.segments, parts, |parts|);
      hide Drawn, Split, Decode;
    }
  }

  // ---------- Resolving ----------

  datatype Located = Located(route: nat, params: Params)

  /** The first route, in the order declared, that matches. */
  method Resolve(routes: seq<Pattern>, path: string) returns (r: Option<Located>)
    ensures r == None <==> forall i :: 0 <= i < |routes| ==> Matched(routes[i], path) == None
    ensures r.Some? ==>
      && r.value.route < |routes| && Matched(routes[r.value.route], path) == Some(r.value.params)
      && forall i :: 0 <= i < r.value.route ==> Matched(routes[i], path) == None
  {
    for i := 0 to |routes|
      invariant forall j :: 0 <= j < i ==> Matched(routes[j], path) == None
    {
      var params := Match(routes[i], path);
      if params.Some? {
        return Some(Located(i, params.value));
      }
    }
    r := None;
  }
}
