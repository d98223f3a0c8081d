/**
  Resolution of the export request's index and type specs into the map from
  index name to set of type names that performExport builds (an empty type set
  stands for all types), and the merge of the explicit `index/type` names.
 */
module SpecResolver {
  import opened Wrappers

  type IndexMap = map<string, set<string>>

  // ---------------------------------------------------------------------------
  // Splitting text

  /** `s` cut at every occurrence of `d`; the pieces may be empty, and there is always one. */
  function SplitOn(s: string, d: char): (r: seq<string>)
    ensures |r| >= 1
    decreases |s|
  {
    if s == [] then [[]] else ConsPiece(s[0], SplitOn(s[1..], d), d)
  }

  /** The pieces of a text that starts with `c`, given the pieces of the rest. */
  function ConsPiece(c: char, rest: seq<string>, d: char): (r: seq<string>)
    requires |rest| >= 1
    ensures |r| >= 1
  {
    if c == d then [[]] + rest else [[c] + rest[0]] + rest[1..]
  }

  /** The pieces put back together with `d` between them. */
  function Join(parts: seq<string>, d: char): string
    decreases |parts|
  {
    if |parts| == 0 then []
    else if |parts| == 1 then parts[0]
    else parts[0] + [d] + Join(parts[1..], d)
  }

  /** Splitting and joining again gives back the text, and no piece holds the delimiter. */
  lemma {:induction false} JoinSplitOn(s: string, d: char)
    ensures Join(SplitOn(s, d), d) == s
    ensures forall j :: 0 <= j < |SplitOn(s, d)| ==> d !in SplitOn(s, d)[j]
    decreases |s|
  {
    if s != [] {
      var rest := SplitOn(s[1..], d);
      JoinSplitOn(s[1..], d);
      assert s == [s[0]] + s[1..];
      if s[0] == d {
        assert SplitOn(s, d) == [[]] + rest;
        if |rest| == 1 {
          assert Join(SplitOn(s, d), d) == [] + [d] + Join(rest, d);
        } else {
          assert Join(SplitOn(s, d), d) == [] + [d] + Join(rest, d);
        }
      } else {
        var r := SplitOn(s, d);
        assert r == [[s[0]] + rest[0]] + rest[1..];
        if |rest| == 1 {
          assert Join(rest, d) == rest[0];
        } else {
          assert Join(rest, d) == rest[0] + [d] + Join(rest[1..], d);
          assert r[1..] == rest[1..];
        }
        forall j | 0 <= j < |r| ensures d !in r[j] {
          if j > 0 { assert r[j] == rest[j]; }
        }
      }
    }
  }

  /** Text without the delimiter is one piece. */
  lemma {:induction false} SplitOnWithout(s: string, d: char)
    requires d !in s
    ensures SplitOn(s, d) == [s]
    decreases |s|
  {
    if s != [] {
      SplitOnWithout(s[1..], d);
      assert s == [s[0]] + s[1..];
    }
  }

  /** One step of SplitOn, for text that starts with `c`. */
  lemma SplitOnCons(c: char, s: string, d: char)
    ensures SplitOn([c] + s, d) == ConsPiece(c, SplitOn(s, d), d)
  {
    assert ([c] + s)[0] == c && ([c] + s)[1..] == s;
  }

  /** Putting a character in front keeps a common suffix of the pieces. */
  lemma ConsPieceShift(c: char, rx: seq<string>, rb: seq<string>, d: char)
    requires |rx| >= 1
    ensures ConsPiece(c, rx + rb, d) == ConsPiece(c, rx, d) + rb
  {
    if c != d {
      assert (rx + rb)[0] == rx[0];
      assert (rx + rb)[1..] == rx[1..] + rb;
    }
  }

  /** Cutting at one delimiter between `a` and `b` gives the pieces of `a`, then those of `b`. */
  lemma {:induction false} SplitOnAround(a: string, b: string, d: char)
    ensures SplitOn(a + [d] + b, d) == SplitOn(a, d) + SplitOn(b, d)
    decreases |a|
  {
    if a == [] {
      assert a + [d] + b == [d] + b;
      SplitOnCons(d, b, d);
    } else {
      var tail := a[1..] + [d] + b;
      assert a + [d] + b == [a[0]] + tail;
      assert a == [a[0]] + a[1..];
      SplitOnAround(a[1..], b, d);
      SplitOnCons(a[0], tail, d);
      SplitOnCons(a[0], a[1..], d);
      ConsPieceShift(a[0], SplitOn(a[1..], d), SplitOn(b, d), d);
    }
  }

  predicate AllEmpty(ps: seq<string>)
  {
    forall j :: 0 <= j < |ps| ==> ps[j] == []
  }

  predicate OnlyChar(s: string, d: char)
  {
    forall i :: 0 <= i < |s| ==> s[i] == d
  }

  /** Every piece is empty exactly when the text consists of delimiters only. */
  lemma {:induction false} SplitOnAllEmpty(s: string, d: char)
    ensures AllEmpty(SplitOn(s, d)) <==> OnlyChar(s, d)
    decreases |s|
  {
    if s != [] {
      SplitOnAllEmpty(s[1..], d);
      var rest := SplitOn(s[1..], d);
      var r := SplitOn(s, d);
      if s[0] == d {
        assert r == [[]] + rest;
        if AllEmpty(r) {
          forall j | 0 <= j < |rest| ensures rest[j] == [] { assert rest[j] == r[j + 1]; }
          forall i | 0 <= i < |s| ensures s[i] == d { if i > 0 { assert s[i] == s[1..][i - 1]; } }
        }
        if OnlyChar(s, d) {
          forall i | 0 <= i < |s[1..]| ensures s[1..][i] == d { assert s[1..][i] == s[i + 1]; }
          forall j | 0 <= j < |r| ensures r[j] == [] { if j > 0 { assert r[j] == rest[j - 1]; } }
        }
      } else {
        assert r[0] != [];
        assert !OnlyChar(s, d);
      }
    }
  }

  /**
    Strings.commaDelimitedListToStringArray: every comma separates two tokens,
    no token is trimmed, and the empty text has no token.
   */
  function CommaTokens(s: string): (r: seq<string>)
  {
    if s == [] then [] else SplitOn(s, ',')
  }

  /** Strings.commaDelimitedListToSet: the distinct comma tokens. */
  function TokenSet(s: string): (r: set<string>)
    ensures forall t :: t in r <==> t in CommaTokens(s)
  {
    set t | t in CommaTokens(s)
  }

  /** The tokens of a spec joined with commas give the spec back, and no token holds a comma. */
  lemma CommaTokensRoundTrip(s: string)
    ensures Join(CommaTokens(s), ',') == s
    ensures forall t :: t in TokenSet(s) ==> ',' !in t
  {
    JoinSplitOn(s, ',');
  }

  // ---------------------------------------------------------------------------
  // The initial map (lines 139-142)

  /** The map lines 139-142 build: each distinct index token maps to the distinct type tokens. */
  function InitialIndices(indexSpec: string, typeSpec: string): IndexMap
  {
    map k | k in TokenSet(indexSpec) :: TokenSet(typeSpec)
  }

  /** Lines 139-142: one put per distinct index token, each with a fresh set of the type tokens. */
  method BuildIndices(indexSpec: string, typeSpec: string) returns (indices: IndexMap)
    ensures forall k :: k in indices <==> k in CommaTokens(indexSpec)
    ensures forall k :: k in indices ==> (forall t :: t in indices[k] <==> t in CommaTokens(typeSpec))
    ensures |indices| == |TokenSet(indexSpec)|
    ensures indices == InitialIndices(indexSpec, typeSpec)
  {
    indices := map[];
    var remaining := TokenSet(indexSpec);
    while remaining != {}
      invariant remaining <= TokenSet(indexSpec)
      invariant indices.Keys == TokenSet(indexSpec) - remaining
      invariant forall k :: k in indices ==> indices[k] == TokenSet(typeSpec)
      decreases remaining
    {
      var s :| s in remaining;
      indices := indices[s := TokenSet(typeSpec)];
      remaining := remaining - {s};
    }
    assert indices.Keys == TokenSet(indexSpec);
  }

  // ---------------------------------------------------------------------------
  // Explicit index/type names (lines 145-164)

  /**
    String.split("/") on one name: text without '/' is one piece; otherwise the
    pieces between slashes, with trailing empty pieces removed.
   */
  function SplitSlash(tok: string): seq<string>
  {
    if '/' !in tok then [tok] else StripTrailingEmpty(SplitOn(tok, '/'))
  }

  function StripTrailingEmpty(ps: seq<string>): (r: seq<string>)
    ensures |r| <= |ps| && r == ps[..|r|]
    ensures forall j :: |r| <= j < |ps| ==> ps[j] == []
    ensures r == [] <==> forall j :: 0 <= j < |ps| ==> ps[j] == []
    ensures r != [] ==> r[|r| - 1] != []
    decreases |ps|
  {
    if ps == [] then []
    else if ps[|ps| - 1] == [] then StripTrailingEmpty(ps[..|ps| - 1])
    else ps
  }

  /**
    Lines 150-152: the index (s[0]) and, when there is a second piece, the type
    (s[1]). A name whose split has no piece makes s[0] throw.
   */
  function ParsePair(tok: string): Result<(string, Option<string>)>
  {
    var s := SplitSlash(tok);
    if |s| == 0 then Err("java.lang.ArrayIndexOutOfBoundsException: 0")
    else Ok((s[0], if |s| > 1 then Some(s[1]) else None))
  }

  /** Parsing a name throws exactly when the name is one or more slashes and nothing else. */
  lemma ParsePairThrowsExactly(tok: string)
    ensures ParsePair(tok).Err? <==> (|tok| > 0 && OnlyChar(tok, '/'))
  {
    SplitOnAllEmpty(tok, '/');
    if |tok| > 0 && OnlyChar(tok, '/') {
      assert tok[0] == '/';
    }
    if '/' !in tok {
      assert ParsePair(tok).Ok?;
      if |tok| > 0 { assert tok[0] != '/'; }
    }
  }

  /** A name without '/' is a bare index. */
  lemma ParseBareName(tok: string)
    requires '/' !in tok
    ensures ParsePair(tok) == Ok((tok, None))
  {
  }

  /** `i/t`, with no slash in either part and a non-empty type, is index i with type t. */
  lemma ParseQualifiedName(i: string, t: string)
    requires '/' !in i && '/' !in t && t != []
    ensures ParsePair(i + "/" + t) == Ok((i, Some(t)))
  {
    assert i + "/" + t == i + ['/'] + t;
    assert (i + "/" + t)[|i|] == '/';
    SplitOnAround(i, t, '/');
    SplitOnWithout(i, '/');
    SplitOnWithout(t, '/');
    assert SplitOn(i + "/" + t, '/') == [i, t];
  }

  /** What a key of the name map contributes: its index and optional type, or nothing (null, `_all`, or a parse that throws). */
  function Contribution(spec: Option<string>): Option<(string, Option<string>)>
  {
    if spec.None? then None
    else match ParsePair(spec.value)
      case Err(_) => None
      case Ok(pair) => if pair.0 == "_all" then None else Some(pair)
  }

  predicate Throws(spec: Option<string>)
  {
    spec.Some? && ParsePair(spec.value).Err?
  }

  function TypesOf(m: IndexMap, k: string): set<string>
  {
    if k in m then m[k] else {}
  }

  /** One pass of the loop body of lines 146-163. */
  function MergeStep(m: IndexMap, spec: Option<string>): Result<IndexMap>
  {
    if Throws(spec) then Err(ParsePair(spec.value).error)
    else match Contribution(spec)
      case None => Ok(m)
      case Some(pair) =>
        Ok(m[pair.0 := TypesOf(m, pair.0) + (if pair.1.Some? then {pair.1.value} else {})])
  }

  /** The map after the loop of lines 146-163 has run over `specs`; the first throwing name aborts. */
  function Merged(m: IndexMap, specs: seq<Option<string>>): Result<IndexMap>
    decreases |specs|
  {
    if specs == [] then Ok(m)
    else match Merged(m, specs[..|specs| - 1])
      case Err(e) => Err(e)
      case Ok(acc) => MergeStep(acc, specs[|specs| - 1])
  }

  /** What each name contributes, in order. */
  function Contributions(specs: seq<Option<string>>): (cs: seq<Option<(string, Option<string>)>>)
    ensures |cs| == |specs| && forall j :: 0 <= j < |specs| ==> cs[j] == Contribution(specs[j])
  {
    seq(|specs|, j requires 0 <= j < |specs| => Contribution(specs[j]))
  }

  ghost function IndicesIn(cs: seq<Option<(string, Option<string>)>>): set<string>
  {
    set j | 0 <= j < |cs| && cs[j].Some? :: cs[j].value.0
  }

  ghost function TypesIn(cs: seq<Option<(string, Option<string>)>>, k: string): set<string>
  {
    set j | 0 <= j < |cs| && cs[j].Some? && cs[j].value.0 == k && cs[j].value.1.Some? :: cs[j].value.1.value
  }

  /** The index names the explicit names add. */
  ghost function NamedIndices(specs: seq<Option<string>>): set<string>
  {
    IndicesIn(Contributions(specs))
  }

  /** The type names the explicit names add to index k. */
  ghost function NamedTypes(specs: seq<Option<string>>, k: string): set<string>
  {
    TypesIn(Contributions(specs), k)
  }

  function Added(c: Option<(string, Option<string>)>): set<string>
  {
    if c.Some? then {c.value.0} else {}
  }

  function AddedTypes(c: Option<(string, Option<string>)>, k: string): set<string>
  {
    if c.Some? && c.value.0 == k && c.value.1.Some? then {c.value.1.value} else {}
  }

  lemma ContributionsSnoc(specs: seq<Option<string>>)
    requires specs != []
    ensures Contributions(specs) == Contributions(specs[..|specs| - 1]) + [Contribution(specs[|specs| - 1])]
  {
  }

  lemma InSnoc(cs: seq<Option<(string, Option<string>)>>, c: Option<(string, Option<string>)>)
    ensures IndicesIn(cs + [c]) == IndicesIn(cs) + Added(c)
    ensures forall k :: TypesIn(cs + [c], k) == TypesIn(cs, k) + AddedTypes(c, k)
  {
    var xs := cs + [c];
    forall x
      ensures x in IndicesIn(xs) <==> x in IndicesIn(cs) + Added(c)
    {
      if x in IndicesIn(xs) {
        var j :| 0 <= j < |xs| && xs[j].Some? && xs[j].value.0 == x;
        if j < |cs| { assert cs[j] == xs[j]; }
      }
      if x in IndicesIn(cs) {
        var j :| 0 <= j < |cs| && cs[j].Some? && cs[j].value.0 == x;
        assert xs[j] == cs[j];
      }
      if x in Added(c) {
        assert xs[|cs|] == c;
      }
    }
    forall k
      ensures TypesIn(xs, k) == TypesIn(cs, k) + AddedTypes(c, k)
    {
      forall t
        ensures t in TypesIn(xs, k) <==> t in TypesIn(cs, k) + AddedTypes(c, k)
      {
        if t in TypesIn(xs, k) {
          var j :| 0 <= j < |xs| && xs[j].Some? && xs[j].value.0 == k && xs[j].value.1.Some? && xs[j].value.1.value == t;
          if j < |cs| { assert cs[j] == xs[j]; }
        }
        if t in TypesIn(cs, k) {
          var j :| 0 <= j < |cs| && cs[j].Some? && cs[j].value.0 == k && cs[j].value.1.Some? && cs[j].value.1.value == t;
          assert xs[j] == cs[j];
        }
        if t in AddedTypes(c, k) {
          assert xs[|cs|] == c;
        }
      }
    }
  }

  /** Only a named index has named types. */
  lemma NamedTypesOfNamedIndex(specs: seq<Option<string>>, k: string)
    requires NamedTypes(specs, k) != {}
    ensures k in NamedIndices(specs)
  {
    var cs := Contributions(specs);
    var t :| t in TypesIn(cs, k);
    var j :| 0 <= j < |cs| && cs[j].Some? && cs[j].value.0 == k && cs[j].value.1.Some? && cs[j].value.1.value == t;
    assert k in IndicesIn(cs);
  }

  /** One pass of the loop: it throws exactly when the name throws, and adds what the name contributes. */
  lemma MergeStepCharacterized(acc: IndexMap, spec: Option<string>)
    ensures MergeStep(acc, spec).Err? <==> Throws(spec)
    ensures MergeStep(acc, spec).Ok? ==> MergeStep(acc, spec).value.Keys == acc.Keys + Added(Contribution(spec))
    ensures MergeStep(acc, spec).Ok? ==> forall k :: k in MergeStep(acc, spec).value ==>
      MergeStep(acc, spec).value[k] == TypesOf(acc, k) + AddedTypes(Contribution(spec), k)
  {
  }

  /**
    The merge, independently of the order of the names: it throws exactly when
    some name throws; otherwise the keys are the old keys plus the named indices,
    and each key maps to its old types plus the types named for it.
   */
  lemma MergedCharacterized(m: IndexMap, specs: seq<Option<string>>)
    ensures Merged(m, specs).Err? <==> AnyThrows(specs)
    ensures Merged(m, specs).Ok? ==> Merged(m, specs).value.Keys == m.Keys + NamedIndices(specs)
    ensures Merged(m, specs).Ok? ==>
      forall k :: k in Merged(m, specs).value ==> Merged(m, specs).value[k] == TypesOf(m, k) + NamedTypes(specs, k)
  {
    MergedThrows(m, specs);
    MergedKeys(m, specs);
    MergedTypes(m, specs);
  }

  lemma {:induction false} MergedThrows(m: IndexMap, specs: seq<Option<string>>)
    ensures Merged(m, specs).Err? <==> AnyThrows(specs)
    decreases |specs|
  {
    if specs != [] {
      var init, last := specs[..|specs| - 1], specs[|specs| - 1];
      MergedThrows(m, init);
      ThrowsSnoc(specs);
      if Merged(m, init).Ok? {
        MergeStepCharacterized(Merged(m, init).value, last);
      }
    }
  }

  lemma {:induction false} MergedKeys(m: IndexMap, specs: seq<Option<string>>)
    ensures Merged(m, specs).Ok? ==> Merged(m, specs).value.Keys == m.Keys + NamedIndices(specs)
    decreases |specs|
  {
    if specs != [] {
      var init, last := specs[..|specs| - 1], specs[|specs| - 1];
      MergedKeys(m, init);
      if Merged(m, init).Ok? {
        MergeStepCharacterized(Merged(m, init).value, last);
        ContributionsSnoc(specs);
        InSnoc(Contributions(init), Contribution(last));
      }
    }
  }

  lemma {:induction false} MergedTypes(m: IndexMap, specs: seq<Option<string>>)
    ensures Merged(m, specs).Ok? ==>
      forall k :: k in Merged(m, specs).value ==> Merged(m, specs).value[k] == TypesOf(m, k) + NamedTypes(specs, k)
    decreases |specs|
  {
    if specs != [] {
      var init, last := specs[..|specs| - 1], specs[|specs| - 1];
      MergedTypes(m, init);
      if Merged(m, init).Ok? {
        var acc := Merged(m, init).value;
        MergedKeys(m, init);
        MergeStepCharacterized(acc, last);
        ContributionsSnoc(specs);
        InSnoc(Contributions(init), Contribution(last));
        forall k | k !in acc
          ensures TypesOf(m, k) + NamedTypes(init, k) == TypesOf(acc, k)
        {
          if NamedTypes(init, k) != {} {
            NamedTypesOfNamedIndex(init, k);
          }
        }
      }
    }
  }

  /** Some name of `specs` throws when parsed. */
  predicate AnyThrows(specs: seq<Option<string>>)
  {
    exists j :: 0 <= j < |specs| && Throws(specs[j])
  }

  lemma ThrowsSnoc(specs: seq<Option<string>>)
    requires specs != []
    ensures AnyThrows(specs) <==> AnyThrows(specs[..|specs| - 1]) || Throws(specs[|specs| - 1])
  {
    var init := specs[..|specs| - 1];
    if AnyThrows(specs) {
      var j :| 0 <= j < |specs| && Throws(specs[j]);
      if j < |init| { assert init[j] == specs[j]; }
    }
    if AnyThrows(init) {
      var j :| 0 <= j < |init| && Throws(init[j]);
      assert init[j] == specs[j];
    }
  }

  lemma AllNeverNamed(specs: seq<Option<string>>)
    ensures "_all" !in NamedIndices(specs)
  {
    var cs := Contributions(specs);
    assert forall j :: 0 <= j < |cs| && cs[j].Some? ==> cs[j].value.0 != "_all";
  }

  /** The merge never adds `_all` as a key. */
  lemma {:induction false} MergeNeverAddsAll(m: IndexMap, specs: seq<Option<string>>)
    requires Merged(m, specs).Ok?
    ensures "_all" in Merged(m, specs).value <==> "_all" in m
  {
    MergedCharacterized(m, specs);
    AllNeverNamed(specs);
  }

  /** Every existing key stays, with every type it had. */
  lemma {:induction false} MergeKeepsExisting(m: IndexMap, specs: seq<Option<string>>)
    requires Merged(m, specs).Ok?
    ensures forall k :: k in m ==> k in Merged(m, specs).value && m[k] <= Merged(m, specs).value[k]
  {
    MergedCharacterized(m, specs);
  }

  /** A bare index name makes the index a key and adds no type to it. */
  lemma {:induction false} MergeBareName(m: IndexMap, specs: seq<Option<string>>, j: nat, i: string)
    requires j < |specs| && specs[j] == Some(i) && '/' !in i && i != "_all"
    requires Merged(m, specs).Ok?
    ensures i in Merged(m, specs).value
    ensures NamedTypes(specs, i) == {} ==> Merged(m, specs).value[i] == TypesOf(m, i)
  {
    MergedCharacterized(m, specs);
    ParseBareName(i);
    var cs := Contributions(specs);
    assert cs[j] == Some((i, None));
    assert i in IndicesIn(cs);
  }

  /** `i/t` makes i a key whose types include t and all the types i had. */
  lemma {:induction false} MergeQualifiedName(m: IndexMap, specs: seq<Option<string>>, j: nat, i: string, t: string)
    requires j < |specs| && specs[j] == Some(i + "/" + t)
    requires '/' !in i && '/' !in t && t != [] && i != "_all"
    requires Merged(m, specs).Ok?
    ensures i in Merged(m, specs).value
    ensures t in Merged(m, specs).value[i] && TypesOf(m, i) <= Merged(m, specs).value[i]
  {
    MergedCharacterized(m, specs);
    ParseQualifiedName(i, t);
    var cs := Contributions(specs);
    assert cs[j] == Some((i, Some(t)));
    assert i in IndicesIn(cs);
    assert t in TypesIn(cs, i);
  }

  /** Keys no name mentions keep their types, and no other key appears. */
  lemma {:induction false} MergeOthersUnchanged(m: IndexMap, specs: seq<Option<string>>)
    requires Merged(m, specs).Ok?
    ensures forall k :: k in m && k !in NamedIndices(specs) ==>
      k in Merged(m, specs).value && Merged(m, specs).value[k] == m[k]
    ensures forall k :: k !in m && k !in NamedIndices(specs) ==> k !in Merged(m, specs).value
  {
    MergedCharacterized(m, specs);
    forall k | k in m && k !in NamedIndices(specs)
      ensures NamedTypes(specs, k) == {}
    {
      if NamedTypes(specs, k) != {} {
        NamedTypesOfNamedIndex(specs, k);
      }
    }
  }

  /** A pass of the loop for a name that parses. */
  lemma MergeStepOf(acc: IndexMap, spec: Option<string>, c: Option<(string, Option<string>)>)
    requires !Throws(spec) && Contribution(spec) == c
    ensures MergeStep(acc, spec) == Ok(if c.None? then acc else acc[c.value.0 := TypesOf(acc, c.value.0) + AddedTypes(c, c.value.0)])
  {
  }

  /** What a qualified name contributes. */
  lemma QualifiedContribution(i: string, t: string)
    requires '/' !in i && '/' !in t && t != []
    ensures !Throws(Some(i + "/" + t))
    ensures Contribution(Some(i + "/" + t)) == if i == "_all" then None else Some((i, Some(t)))
  {
    ParseQualifiedName(i, t);
  }

  /** What a bare name other than `_all` contributes. */
  lemma BareContribution(i: string)
    requires '/' !in i && i != [] && i != "_all"
    ensures !Throws(Some(i)) && Contribution(Some(i)) == Some((i, None))
  {
    ParseBareName(i);
  }

  /** One more name after a prefix that merged without throwing. */
  lemma MergedSnoc(m: IndexMap, prefix: seq<Option<string>>, spec: Option<string>, acc: IndexMap, next: IndexMap)
    requires Merged(m, prefix) == Ok(acc) && MergeStep(acc, spec) == Ok(next)
    ensures Merged(m, prefix + [spec]) == Ok(next)
  {
    assert (prefix + [spec])[..|prefix|] == prefix;
  }

  /** A name or type name that parses: not empty and without '/'. */
  predicate PlainName(n: string)
  {
    '/' !in n && n != []
  }

  /** Four names whose passes succeed one after the other. */
  lemma MergedFour(m0: IndexMap, s1: Option<string>, s2: Option<string>, s3: Option<string>, s4: Option<string>,
                   m1: IndexMap, m2: IndexMap, m3: IndexMap, m4: IndexMap)
    requires MergeStep(m0, s1) == Ok(m1) && MergeStep(m1, s2) == Ok(m2)
    requires MergeStep(m2, s3) == Ok(m3) && MergeStep(m3, s4) == Ok(m4)
    ensures Merged(m0, [s1, s2, s3, s4]) == Ok(m4)
  {
    assert Merged(m0, []) == Ok(m0);
    MergedSnoc(m0, [], s1, m0, m1);
    assert [] + [s1] == [s1];
    MergedSnoc(m0, [s1], s2, m1, m2);
    assert [s1] + [s2] == [s1, s2];
    MergedSnoc(m0, [s1, s2], s3, m2, m3);
    assert [s1, s2] + [s3] == [s1, s2, s3];
    MergedSnoc(m0, [s1, s2, s3], s4, m3, m4);
    assert [s1, s2, s3] + [s4] == [s1, s2, s3, s4];
  }

  /**
    The names a/x, a/y, _all/z and b, merged into an empty map, give a:{x,y}
    and b:{}: two types of one index collect, `_all` is skipped, a bare name
    gets an empty type set.
   */
  lemma MergeExample(a: string, b: string, x: string, y: string, z: string)
    requires PlainName(a) && PlainName(b) && PlainName(x) && PlainName(y) && PlainName(z)
    requires a != b && a != "_all" && b != "_all"
    ensures var r := Merged(map[], [Some(a + "/" + x), Some(a + "/" + y), Some("_all" + "/" + z), Some(b)]);
      r.Ok? && r.value.Keys == {a, b} && r.value[a] == {x, y} && r.value[b] == {}
  {
    var s1, s2, s3, s4 := Some(a + "/" + x), Some(a + "/" + y), Some("_all" + "/" + z), Some(b);
    var e: IndexMap := map[];
    var m1 := e[a := TypesOf(e, a) + {x}];
    var m2 := m1[a := TypesOf(m1, a) + {y}];
    var m4 := m2[b := TypesOf(m2, b)];
    assert MergeStep(e, s1) == Ok(m1) by {
      QualifiedContribution(a, x);
      MergeStepOf(e, s1, Some((a, Some(x))));
    }
    assert MergeStep(m1, s2) == Ok(m2) by {
      QualifiedContribution(a, y);
      MergeStepOf(m1, s2, Some((a, Some(y))));
    }
    assert MergeStep(m2, s3) == Ok(m2) by {
      QualifiedContribution("_all", z);
      MergeStepOf(m2, s3, None);
    }
    assert MergeStep(m2, s4) == Ok(m4) by {
      BareContribution(b);
      MergeStepOf(m2, s4, Some((b, None)));
      assert TypesOf(m2, b) + AddedTypes(Some((b, None)), b) == TypesOf(m2, b);
    }
    MergedFour(e, s1, s2, s3, s4, m1, m2, m2, m4);
    assert m1[a] == {x};
    assert m2[a] == {x, y};
    assert b !in m2;
    assert m4[b] == {};
  }

  /** Lines 145-164: the loop over the explicit names, updating the map in place. */
  method MergeExplicitNames(indices: IndexMap, specs: seq<Option<string>>) returns (r: Result<IndexMap>)
    ensures r == Merged(indices, specs)
  {
    var acc := indices;
    for j := 0 to |specs|
      invariant Merged(indices, specs[..j]) == Ok(acc)
    {
      assert specs[..j + 1][..j] == specs[..j];
      var spec := specs[j];
      assert Merged(indices, specs[..j + 1]) == MergeStep(acc, spec);
      if spec.None? {
        assert Merged(indices, specs[..j + 1]) == Ok(acc);
        continue;
      }
      var s := SplitSlash(spec.value);
      if |s| == 0 {
        assert Throws(spec);
        assert Merged(indices, specs[..j + 1]).Err?;
        MergedStopsAtThrow(indices, specs, j + 1);
        return Err("java.lang.ArrayIndexOutOfBoundsException: 0");
      }
      var index := s[0];
      var typeName := if |s| > 1 then Some(s[1]) else None;
      assert ParsePair(spec.value) == Ok((index, typeName)) && !Throws(spec);
      if index == "_all" {
        assert Contribution(spec) == None;
        assert Merged(indices, specs[..j + 1]) == Ok(acc);
      } else {
        assert Contribution(spec) == Some((index, typeName));
        var types := if index in acc then acc[index] else {};
        if typeName.Some? {
          types := types + {typeName.value};
        }
        assert types == TypesOf(acc, index) + (if typeName.Some? then {typeName.value} else {});
        assert MergeStep(acc, spec) == Ok(acc[index := types]);
        acc := acc[index := types];
        assert Merged(indices, specs[..j + 1]) == Ok(acc);
      }
    }
    assert specs[..|specs|] == specs;
    r := Ok(acc);
  }

  /** Once the loop has thrown, later names do not matter. */
  lemma {:induction false} MergedStopsAtThrow(m: IndexMap, specs: seq<Option<string>>, n: nat)
    requires n <= |specs| && Merged(m, specs[..n]).Err?
    ensures Merged(m, specs) == Merged(m, specs[..n])
    decreases |specs| - n
  {
    if n < |specs| {
      assert specs[..n + 1][..n] == specs[..n];
      MergedStopsAtThrow(m, specs, n + 1);
    } else {
      assert specs[..n] == specs;
    }
  }
}
