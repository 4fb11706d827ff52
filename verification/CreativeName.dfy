/** Reading creative dimensions from a name such as "Vid1-h2-c3" (packages/core/src/creative.ts). */
module CreativeName {
  import opened Common
  import opened Identity

  datatype Key = Video | Hook | Concept | Audience | Angle | Format

  type Parsed = map<Key, string>

  /** One pattern: any of the prefixes, ignoring ASCII case, followed by a nonempty rest. */
  datatype Pattern = Pattern(prefixes: seq<string>, key: Key)

  const PREFIXES: seq<Pattern> := [
    Pattern(["vid", "v"], Video),
    Pattern(["hook", "h"], Hook),
    Pattern(["concept", "con", "c"], Concept),
    Pattern(["audience", "aud"], Audience),
    Pattern(["angle", "a"], Angle),
    Pattern(["format", "fmt", "f"], Format)
  ]

  predicate IsSeparator(c: char) {
    c == '-' || c == '_' || IsSpace(c)
  }

  // ---- Tokens ----

  /** The length of the longest separator-free prefix. */
  function WordLength(s: string): (n: nat)
    ensures n <= |s|
    ensures forall i :: 0 <= i < n ==> !IsSeparator(s[i])
    ensures n < |s| ==> IsSeparator(s[n])
  {
    if |s| == 0 || IsSeparator(s[0]) then 0 else 1 + WordLength(s[1..])
  }

  /** split on separator runs, empty pieces dropped. */
  function Tokens(s: string): (ts: seq<string>)
    decreases |s|
  {
    if |s| == 0 then []
    else if IsSeparator(s[0]) then Tokens(s[1..])
    else
      var n := WordLength(s);
      [s[..n]] + Tokens(s[n..])
  }

  predicate IsWord(t: string) {
    |t| > 0 && forall i :: 0 <= i < |t| ==> !IsSeparator(t[i])
  }

  function Join(ts: seq<string>): string {
    if |ts| == 0 then "" else if |ts| == 1 then ts[0] else ts[0] + "-" + Join(ts[1..])
  }

  lemma {:induction false} WordLengthOf(t: string, rest: string)
    requires (forall i :: 0 <= i < |t| ==> !IsSeparator(t[i])) && (|rest| == 0 || IsSeparator(rest[0]))
    ensures WordLength(t + rest) == |t|
  {
    if |t| > 0 {
      assert (t + rest)[0] == t[0] && (t + rest)[1..] == t[1..] + rest;
      WordLengthOf(t[1..], rest);
    } else {
      assert t + rest == rest;
    }
  }

  /** A word up to a separator or the end is one token. */
  lemma {:induction false} WordThenRest(t: string, rest: string)
    requires IsWord(t) && (|rest| == 0 || IsSeparator(rest[0]))
    ensures Tokens(t + rest) == [t] + Tokens(rest)
  {
    WordLengthOf(t, rest);
    assert (t + rest)[0] == t[0] && (t + rest)[..|t|] == t && (t + rest)[|t|..] == rest;
  }

  /** Splitting undoes joining. */
  lemma {:induction false} TokensOfJoin(ts: seq<string>)
    requires forall i :: 0 <= i < |ts| ==> IsWord(ts[i])
    ensures Tokens(Join(ts)) == ts
  {
    if |ts| == 1 {
      WordThenRest(ts[0], "");
      assert ts[0] + "" == ts[0];
    } else if |ts| > 1 {
      TokensOfJoin(ts[1..]);
      SeparatorSkipped('-', Join(ts[1..]));
      var rest := "-" + Join(ts[1..]);
      WordThenRest(ts[0], rest);
      assert Join(ts) == ts[0] + rest;
    }
  }

  /** A leading separator, of whatever kind, is skipped. */
  lemma {:induction false} SeparatorSkipped(c: char, s: string)
    requires c == '-' || c == '_' || IsSpace(c)
    ensures Tokens([c] + s) == Tokens(s)
  {
    assert ([c] + s)[0] == c && ([c] + s)[1..] == s;
  }

  // ---- Matching one token ----

  predicate StartsWith(token: string, prefix: string) {
    |prefix| <= |token| && forall i :: 0 <= i < |prefix| ==> LowerChar(token[i]) == prefix[i]
  }

  /** The rest of the token after the first prefix that leaves a nonempty one. */
  function Rest(prefixes: seq<string>, token: string): Option<string> {
    if |prefixes| == 0 then None
    else if StartsWith(token, prefixes[0]) && |prefixes[0]| < |token| then Some(token[|prefixes[0]|..])
    else Rest(prefixes[1..], token)
  }

  /** The first pattern that matches and whose key is still free takes the token. */
  function Assign(out: Parsed, patterns: seq<Pattern>, token: string): Parsed {
    if |patterns| == 0 then out
    else
      var rest := Rest(patterns[0].prefixes, token);
      if rest.Some? && patterns[0].key !in out then out[patterns[0].key := rest.value]
      else Assign(out, patterns[1..], token)
  }

  function ParseTokens(out: Parsed, tokens: seq<string>): Parsed {
    if |tokens| == 0 then out else Assign(ParseTokens(out, Front(tokens)), PREFIXES, Last(tokens))
  }

  function Parse(name: string): Parsed {
    ParseTokens(map[], Tokens(name))
  }

  method ParseCreativeName(name: string) returns (out: Parsed)
    ensures out == Parse(name)
  {
    out := map[];
    var tokens := Tokens(name);
    for i := 0 to |tokens|
      invariant out == ParseTokens(map[], tokens[..i])
    {
      assert Front(tokens[..i + 1]) == tokens[..i];
      ghost var before := out;
      var j := 0;
      while j < |PREFIXES|
        invariant j <= |PREFIXES|
        invariant out == before && Assign(before, PREFIXES, tokens[i]) == Assign(before, PREFIXES[j..], tokens[i])
      {
        var rest := Rest(PREFIXES[j].prefixes, tokens[i]);
        assert PREFIXES[j..][0] == PREFIXES[j] && PREFIXES[j..][1..] == PREFIXES[j + 1..];
        if rest.Some? && PREFIXES[j].key !in out {
          out := out[PREFIXES[j].key := rest.value];
          break;
        }
        j := j + 1;
      }
      assert out == Assign(before, PREFIXES, tokens[i]);
    }
    assert tokens[..|tokens|] == tokens;
  }

  // ---- What a token sets ----

  /** Alternative i of the pattern is the first that starts the token and leaves something. */
  predicate TakenBy(prefixes: seq<string>, token: string, i: int) {
    && 0 <= i < |prefixes| && StartsWith(token, prefixes[i]) && |prefixes[i]| < |token|
    && forall j :: 0 <= j < i ==> !(StartsWith(token, prefixes[j]) && |prefixes[j]| < |token|)
  }

  /** A pattern yields what its first fitting alternative leaves of the token, and nothing if none fits. */
  lemma {:induction false} RestExact(prefixes: seq<string>, token: string)
    ensures forall i :: TakenBy(prefixes, token, i) ==> Rest(prefixes, token) == Some(token[|prefixes[i]|..])
    ensures (forall i :: 0 <= i < |prefixes| ==> !(StartsWith(token, prefixes[i]) && |prefixes[i]| < |token|)) ==>
              Rest(prefixes, token).None?
  {
    if |prefixes| > 0 && !(StartsWith(token, prefixes[0]) && |prefixes[0]| < |token|) {
      RestExact(prefixes[1..], token);
      assert forall i :: 0 <= i < |prefixes| - 1 ==> prefixes[1..][i] == prefixes[i + 1];
      forall i | TakenBy(prefixes, token, i)
        ensures Rest(prefixes, token) == Some(token[|prefixes[i]|..])
      {
        assert TakenBy(prefixes[1..], token, i - 1);
      }
    }
  }

  /** Pattern j fits the token and its dimension is still free. */
  predicate Fits(out: Parsed, patterns: seq<Pattern>, token: string, j: int) {
    0 <= j < |patterns| && Rest(patterns[j].prefixes, token).Some? && patterns[j].key !in out
  }

  /** A token sets the dimension of the first pattern that fits, and nothing else. */
  lemma {:induction false} AssignExact(out: Parsed, patterns: seq<Pattern>, token: string, j: int)
    requires Fits(out, patterns, token, j) && forall i :: 0 <= i < j ==> !Fits(out, patterns, token, i)
    ensures Assign(out, patterns, token) == out[patterns[j].key := Rest(patterns[j].prefixes, token).value]
  {
    if j > 0 {
      assert !Fits(out, patterns, token, 0);
      forall i | 0 <= i < |patterns| - 1
        ensures Fits(out, patterns[1..], token, i) <==> Fits(out, patterns, token, i + 1)
      {
        assert patterns[1..][i] == patterns[i + 1];
      }
      AssignExact(out, patterns[1..], token, j - 1);
    }
  }

  /** A token no pattern fits is ignored. */
  lemma {:induction false} AssignIgnores(out: Parsed, patterns: seq<Pattern>, token: string)
    requires forall j :: 0 <= j < |patterns| ==> !Fits(out, patterns, token, j)
    ensures Assign(out, patterns, token) == out
  {
    if |patterns| > 0 {
      assert !Fits(out, patterns, token, 0);
      forall i | 0 <= i < |patterns| - 1
        ensures !Fits(out, patterns[1..], token, i)
      {
        assert patterns[1..][i] == patterns[i + 1] && !Fits(out, patterns, token, i + 1);
      }
      AssignIgnores(out, patterns[1..], token);
    }
  }

  /** The name the naming convention gives as its example. */
  lemma {:induction false} ExampleName()
    ensures Parse(Join(["Vid1", "h2", "c3"])) == map[Video := "1", Hook := "2", Concept := "3"]
  {
    var first, second, third: Parsed := map[Video := "1"], map[Video := "1", Hook := "2"],
                                        map[Video := "1", Hook := "2", Concept := "3"];
    TokensOfJoin(["Vid1", "h2", "c3"]);
    FirstExampleToken();
    SecondExampleToken(first);
    ThirdExampleToken(second);
    ThreeTokens("Vid1", "h2", "c3");
    assert map[][Video := "1"] == first && first[Hook := "2"] == second && second[Concept := "3"] == third;
  }

  lemma {:induction false} ThreeTokens(a: string, b: string, c: string)
    ensures ParseTokens(map[], [a, b, c])
         == Assign(Assign(Assign(map[], PREFIXES, a), PREFIXES, b), PREFIXES, c)
  {
    assert Front([a, b, c]) == [a, b] && Front([a, b]) == [a] && Front([a]) == [];
    assert ParseTokens(map[], [a]) == Assign(map[], PREFIXES, a);
    assert ParseTokens(map[], [a, b]) == Assign(ParseTokens(map[], [a]), PREFIXES, b);
  }

  lemma {:induction false} FirstExampleToken()
    ensures Assign(map[], PREFIXES, "Vid1") == map[][Video := "1"]
  {
    assert StartsWith("Vid1", "vid") && "Vid1"[3..] == "1";
    ExampleToken(map[], "Vid1", 0, 0, "1");
  }

  lemma {:induction false} SecondExampleToken(out: Parsed)
    requires out.Keys == {Video}
    ensures Assign(out, PREFIXES, "h2") == out[Hook := "2"]
  {
    assert StartsWith("h2", "h") && "h2"[1..] == "2";
    ExampleToken(out, "h2", 1, 1, "2");
  }

  lemma {:induction false} ThirdExampleToken(out: Parsed)
    requires out.Keys == {Video, Hook}
    ensures Assign(out, PREFIXES, "c3") == out[Concept := "3"]
  {
    assert StartsWith("c3", "c") && "c3"[1..] == "3";
    ExampleToken(out, "c3", 2, 2, "3");
  }

  lemma {:induction false} ExampleToken(out: Parsed, token: string, j: int, i: int, v: string)
    requires 0 <= j < |PREFIXES| && TakenBy(PREFIXES[j].prefixes, token, i) && token[|PREFIXES[j].prefixes[i]|..] == v
    requires PREFIXES[j].key !in out && forall n :: 0 <= n < j ==> PREFIXES[n].key in out
    ensures Assign(out, PREFIXES, token) == out[PREFIXES[j].key := v]
  {
    RestExact(PREFIXES[j].prefixes, token);
    AssignExact(out, PREFIXES, token, j);
  }

  // ---- Set once, from a suffix ----

  predicate IsProperSuffix(v: string, token: string) {
    0 < |v| < |token| && v == token[|token| - |v|..]
  }

  lemma {:induction false} RestIsSuffix(prefixes: seq<string>, token: string)
    requires forall p :: p in prefixes ==> |p| > 0
    ensures Rest(prefixes, token).Some? ==> IsProperSuffix(Rest(prefixes, token).value, token)
  {
    if |prefixes| > 0 { RestIsSuffix(prefixes[1..], token); }
  }

  lemma {:induction false} AssignAddsSuffix(out: Parsed, patterns: seq<Pattern>, token: string)
    requires forall p :: p in patterns ==> forall x :: x in p.prefixes ==> |x| > 0
    ensures var r := Assign(out, patterns, token);
            && (forall k :: k in out ==> k in r && r[k] == out[k])
            && (forall k :: k in r && k !in out ==> IsProperSuffix(r[k], token))
            && |r.Keys - out.Keys| <= 1
  {
    if |patterns| > 0 {
      assert patterns[0] in patterns;
      RestIsSuffix(patterns[0].prefixes, token);
      var rest := Rest(patterns[0].prefixes, token);
      if rest.Some? && patterns[0].key !in out {
        assert out[patterns[0].key := rest.value].Keys - out.Keys == {patterns[0].key};
      } else {
        AssignAddsSuffix(out, patterns[1..], token);
      }
    } else {
      assert out.Keys - out.Keys == {};
    }
  }

  /** A key once set is never overwritten, and every value is a proper nonempty suffix of one of the tokens. */
  lemma {:induction false} SetOnceFromSuffix(out: Parsed, tokens: seq<string>)
    ensures var r := ParseTokens(out, tokens);
            && (forall k :: k in out ==> k in r && r[k] == out[k])
            && (forall k :: k in r && k !in out ==> ComesFrom(r[k], tokens))
  {
    if |tokens| > 0 {
      var before := ParseTokens(out, Front(tokens));
      SetOnceFromSuffix(out, Front(tokens));
      PrefixesNonempty();
      AssignAddsSuffix(before, PREFIXES, Last(tokens));
      forall k | k in ParseTokens(out, tokens) && k !in out
        ensures ComesFrom(ParseTokens(out, tokens)[k], tokens)
      {
        if k in before { StillComesFrom(before[k], tokens); }
      }
    }
  }

  /** v is what is left of one of the tokens after a nonempty prefix. */
  ghost predicate ComesFrom(v: string, tokens: seq<string>) {
    exists i :: 0 <= i < |tokens| && IsProperSuffix(v, tokens[i])
  }

  lemma {:induction false} StillComesFrom(v: string, tokens: seq<string>)
    requires |tokens| > 0 && ComesFrom(v, Front(tokens))
    ensures ComesFrom(v, tokens)
  {
    var i :| 0 <= i < |Front(tokens)| && IsProperSuffix(v, Front(tokens)[i]);
    assert tokens[i] == Front(tokens)[i];
  }

  lemma {:induction false} PrefixesNonempty()
    ensures forall p :: p in PREFIXES ==> forall x :: x in p.prefixes ==> |x| > 0
  {
  }

  // ---- Round trip ----

  function FullPrefix(k: Key): string {
    match k
    case Video => "vid"
    case Hook => "hook"
    case Concept => "concept"
    case Audience => "audience"
    case Angle => "angle"
    case Format => "format"
  }

  /** A dimension and its value, as written into a name. */
  type Dimension = (Key, string)

  function Write(d: Dimension): string {
    FullPrefix(d.0) + d.1
  }

  function WriteAll(ds: seq<Dimension>): seq<string> {
    seq(|ds|, i requires 0 <= i < |ds| => Write(ds[i]))
  }

  function AsParsed(ds: seq<Dimension>): Parsed {
    if |ds| == 0 then map[] else AsParsed(Front(ds))[Last(ds).0 := Last(ds).1]
  }

  lemma {:induction false} FirstLetterDecides(token: string, prefix: string)
    requires |token| > 0 && |prefix| > 0 && LowerChar(token[0]) != prefix[0]
    ensures !StartsWith(token, prefix)
  {
  }

  lemma {:induction false} OwnPrefixMatches(k: Key, v: string, prefixes: seq<string>)
    requires |v| > 0 && |prefixes| > 0 && prefixes[0] == FullPrefix(k)
    ensures Rest(prefixes, Write((k, v))) == Some(v)
  {
    var p, token := FullPrefix(k), Write((k, v));
    assert forall i :: 0 <= i < |p| ==> 'a' <= p[i] <= 'z';
    assert forall i :: 0 <= i < |p| ==> token[i] == p[i] && LowerChar(p[i]) == p[i];
    assert token[|p|..] == v;
  }

  function IndexOf(k: Key): (i: nat)
    ensures i < |PREFIXES| && PREFIXES[i].key == k && |PREFIXES[i].prefixes| > 0 && PREFIXES[i].prefixes[0] == FullPrefix(k)
  {
    match k
    case Video => 0
    case Hook => 1
    case Concept => 2
    case Audience => 3
    case Angle => 4
    case Format => 5
  }

  /** The first letter of a written token, and the second where the first is shared. */
  lemma {:induction false} FirstLetters(k: Key, v: string)
    ensures var token := Write((k, v));
            && |token| > 1
            && LowerChar(token[0]) == (match k
                                       case Video => 'v' case Hook => 'h' case Concept => 'c'
                                       case Audience => 'a' case Angle => 'a' case Format => 'f')
            && (k == Angle ==> LowerChar(token[1]) == 'n')
  {
    var p, token := FullPrefix(k), Write((k, v));
    assert token[0] == p[0] && token[1] == p[1];
  }

  lemma {:induction false} NoneStarts(prefixes: seq<string>, token: string)
    requires forall i :: 0 <= i < |prefixes| ==> !StartsWith(token, prefixes[i])
    ensures Rest(prefixes, token).None?
  {
    if |prefixes| > 0 { NoneStarts(prefixes[1..], token); }
  }

  lemma {:induction false} OtherInitial(prefixes: seq<string>, token: string, c: char)
    requires |token| > 0 && LowerChar(token[0]) != c
    requires forall i :: 0 <= i < |prefixes| ==> |prefixes[i]| > 0 && prefixes[i][0] == c
    ensures Rest(prefixes, token).None?
  {
    forall i | 0 <= i < |prefixes|
      ensures !StartsWith(token, prefixes[i])
    {
      FirstLetterDecides(token, prefixes[i]);
    }
    NoneStarts(prefixes, token);
  }

  /** No pattern before k's own matches a token written for k. */
  lemma {:induction false} EarlierPatternsFail(k: Key, v: string, j: nat)
    requires j < IndexOf(k)
    ensures Rest(PREFIXES[j].prefixes, Write((k, v))).None?
  {
    var token := Write((k, v));
    FirstLetters(k, v);
    if j == 0 {
      OtherInitial(["vid", "v"], token, 'v');
    } else if j == 1 {
      OtherInitial(["hook", "h"], token, 'h');
    } else if j == 2 {
      OtherInitial(["concept", "con", "c"], token, 'c');
    } else if j == 3 {
      if k == Angle {
        assert "audience"[1] == 'u' && "aud"[1] == 'u';
        NoneStarts(["audience", "aud"], token);
      } else {
        OtherInitial(["audience", "aud"], token, 'a');
      }
    } else {
      OtherInitial(["angle", "a"], token, 'a');
    }
  }

  lemma {:induction false} AssignAt(out: Parsed, patterns: seq<Pattern>, token: string, j: nat)
    requires j < |patterns|
    ensures var rest := Rest(patterns[j].prefixes, token);
            Assign(out, patterns[j..], token)
            == if rest.Some? && patterns[j].key !in out then out[patterns[j].key := rest.value]
               else Assign(out, patterns[j + 1..], token)
  {
    assert patterns[j..][0] == patterns[j] && patterns[j..][1..] == patterns[j + 1..];
  }

  lemma {:induction false} SkipTo(out: Parsed, k: Key, v: string, j: nat)
    requires |v| > 0 && k !in out && j <= IndexOf(k)
    ensures Assign(out, PREFIXES[j..], Write((k, v))) == out[k := v]
    decreases IndexOf(k) - j
  {
    AssignAt(out, PREFIXES, Write((k, v)), j);
    if j == IndexOf(k) {
      OwnPrefixMatches(k, v, PREFIXES[j].prefixes);
    } else {
      EarlierPatternsFail(k, v, j);
      SkipTo(out, k, v, j + 1);
    }
  }

  /** A token written for a free key sets exactly that key to exactly that value. */
  lemma {:induction false} WrittenTokenAssigns(out: Parsed, d: Dimension)
    requires |d.1| > 0 && d.0 !in out
    ensures Assign(out, PREFIXES, Write(d)) == out[d.0 := d.1]
  {
    SkipTo(out, d.0, d.1, 0);
    assert PREFIXES[0..] == PREFIXES;
  }

  /** Distinct dimensions with nonempty, separator-free values. */
  ghost predicate Writable(ds: seq<Dimension>) {
    && (forall i :: 0 <= i < |ds| ==> IsWord(ds[i].1))
    && forall i, j :: 0 <= i < j < |ds| ==> ds[i].0 != ds[j].0
  }

  lemma {:induction false} KeysOfParsed(ds: seq<Dimension>)
    ensures forall k :: k in AsParsed(ds) <==> exists i :: 0 <= i < |ds| && ds[i].0 == k
  {
    if |ds| > 0 {
      KeysOfParsed(Front(ds));
      assert forall i :: 0 <= i < |Front(ds)| ==> ds[i] == Front(ds)[i];
      assert ds[|ds| - 1] == Last(ds);
    }
  }

  lemma {:induction false} ParsedBack(ds: seq<Dimension>)
    requires Writable(ds)
    ensures ParseTokens(map[], WriteAll(ds)) == AsParsed(ds)
  {
    if |ds| > 0 {
      var front, last := Front(ds), Last(ds);
      assert Front(WriteAll(ds)) == WriteAll(front) && Last(WriteAll(ds)) == Write(last);
      ParsedBack(front);
      KeysOfParsed(front);
      assert last.0 !in AsParsed(front);
      assert IsWord(ds[|ds| - 1].1);
      WrittenTokenAssigns(AsParsed(front), last);
    }
  }

  lemma {:induction false} WrittenIsWord(d: Dimension)
    requires IsWord(d.1)
    ensures IsWord(Write(d))
  {
    var p := FullPrefix(d.0);
    assert forall i :: 0 <= i < |p| ==> 'a' <= p[i] <= 'z';
    forall i | 0 <= i < |Write(d)|
      ensures !IsSeparator(Write(d)[i])
    {
      if i < |p| { assert Write(d)[i] == p[i]; } else { assert Write(d)[i] == d.1[i - |p|]; }
    }
  }

  /**
   * Round trip: dimensions written with their full prefixes, in any order and joined by "-", are parsed back
   * to exactly the same dimensions.
   */
  lemma {:induction false} RoundTrip(ds: seq<Dimension>)
    requires Writable(ds)
    ensures Parse(Join(WriteAll(ds))) == AsParsed(ds)
    ensures forall i :: 0 <= i < |ds| ==> ds[i].0 in AsParsed(ds) && AsParsed(ds)[ds[i].0] == ds[i].1
    ensures |AsParsed(ds)| == |ds|
  {
    forall i | 0 <= i < |WriteAll(ds)|
      ensures IsWord(WriteAll(ds)[i])
    {
      WrittenIsWord(ds[i]);
    }
    TokensOfJoin(WriteAll(ds));
    ParsedBack(ds);
    ParsedHasAll(ds);
  }

  lemma {:induction false} ParsedHasAll(ds: seq<Dimension>)
    requires Writable(ds)
    ensures forall i :: 0 <= i < |ds| ==> ds[i].0 in AsParsed(ds) && AsParsed(ds)[ds[i].0] == ds[i].1
    ensures |AsParsed(ds)| == |ds|
  {
    if |ds| > 0 {
      var front := Front(ds);
      ParsedHasAll(front);
      KeysOfParsed(front);
      assert forall i :: 0 <= i < |front| ==> front[i] == ds[i];
      assert Last(ds).0 !in AsParsed(front);
    }
  }
}
