/** Parsing and printing channel URIs: the accepted language, last value wins, and when they invert each other. */
module ChannelUriProof {
  import opened ChannelUri

  /** No character of s ends the part that is being read. */
  predicate Free(mode: Mode, s: string) {
    forall c | c in s :: !Special(mode, c)
  }

  predicate Ascii(s: string) {
    forall c | c in s :: c < 128 as char
  }

  predicate ValidPairs(ps: seq<Pair>) {
    forall i | 0 <= i < |ps| :: Free(ParamsKey, ps[i].0) && Free(ParamsValue, ps[i].1)
  }

  /** Setting the parameters one after the other. */
  function Apply(params: map<string, string>, ps: seq<Pair>): (r: map<string, string>)
    decreases |ps|
  {
    if ps == [] then params else Apply(params[Widened(ps[0].0) := Widened(ps[0].1)], ps[1..])
  }

  predicate KnownPrefix(prefix: string) {
    prefix == "" || prefix == SPY_QUALIFIER
  }

  // ---------------------------------------------------------------------------------------------
  // Text is parsed as meant
  // ---------------------------------------------------------------------------------------------

  lemma {:induction false} RunPlain(m: Machine, t: string, rest: string)
    requires Free(m.mode, t)
    ensures Run(m, t + rest) == Run(m.(value := m.value + Widened(t)), rest)
    decreases |t|
  {
    hide Run, Special;
    if t == [] {
      assert t + rest == rest && m.value + [] == m.value;
    } else {
      assert t[0] in t;
      assert forall c | c in t[1..] :: c in t;
      assert t + rest == [t[0]] + (t[1..] + rest);
      RunOne(m, t[0], t[1..] + rest);
      var m1 := m.(value := m.value + Utf8(t[0]));
      RunPlain(m1, t[1..], rest);
      Regrouped(m.value, Utf8(t[0]), Widened(t[1..]));
    }
  }

  lemma Regrouped(a: string, b: string, c: string)
    ensures (a + b) + c == a + (b + c)
  {
  }

  lemma RunOne(m: Machine, c: char, rest: string)
    requires !Special(m.mode, c)
    ensures Run(m, [c] + rest) == Run(m.(value := m.value + Utf8(c)), rest)
  {
    assert ([c] + rest)[1..] == rest;
  }

  lemma RunSpecial(m: Machine, c: char, rest: string)
    requires Special(m.mode, c) && c != ':'
    ensures Run(m, [c] + rest) == Run(Next(m, c), rest)
  {
    assert ([c] + rest)[1..] == rest;
  }

  lemma RunKey(m: Machine, k: string, rest: string)
    requires m.mode == ParamsKey && m.value == "" && Free(ParamsKey, k)
    ensures Run(m, k + "=" + rest) == Run(m.(mode := ParamsValue, key := Widened(k), value := ""), rest)
  {
    hide Run, Free;
    assert k + "=" + rest == k + ("=" + rest);
    RunPlain(m, k, "=" + rest);
    assert m.value + Widened(k) == Widened(k);
    RunSpecial(m.(value := Widened(k)), '=', rest);
  }

  lemma {:induction false} RunPairs(m: Machine, ps: seq<Pair>)
    requires m.mode == ParamsKey && m.value == "" && ps != [] && ValidPairs(ps)
    ensures var o := Run(m, PairsText(ps)); o.Finished? && o.m.media == m.media && o.m.params == Apply(m.params, ps)
    decreases |ps|
  {
    hide Run, Free, Widened;
    var (k, v) := ps[0];
    var m1 := m.(mode := ParamsValue, key := Widened(k), value := "");
    assert m1.value + Widened(v) == Widened(v);
    var m2 := m1.(value := Widened(v));
    if |ps| == 1 {
      assert v + "" == v;
      RunKey(m, k, v);
      RunPlain(m1, v, "");
      RunEnds(m2);
      assert Apply(m.params, ps) == Apply(m2.params[m2.key := m2.value], []);
    } else {
      var rest := PairsText(ps[1..]);
      assert PairsText(ps) == k + "=" + (v + ("|" + rest));
      RunKey(m, k, v + ("|" + rest));
      RunPlain(m1, v, "|" + rest);
      RunSpecial(m2, '|', rest);
      RunPairs(Next(m2, '|'), ps[1..]);
    }
  }

  lemma RunEnds(m: Machine)
    ensures Run(m, "") == Finish(m)
  {
  }

  /** Any known prefix, media and list of parameters is read back, byte by byte widened. */
  lemma ParseText(prefix: string, media: string, ps: seq<Pair>)
    requires KnownPrefix(prefix) && Free(Media, media) && ValidPairs(ps)
    ensures Parse(Text(prefix, media, ps)) == Parsed(Uri(prefix, Widened(media), Apply(map[], ps)))
  {
    hide Run, PairsText, Widened, Free, Special;
    var params := if ps == [] then "" else "?" + PairsText(ps);
    var s := Text(prefix, media, ps);
    assert s == PrefixText(prefix) + (AERON_PREFIX + (media + params));
    BodyOf(prefix, media + params);
    RunPlain(START, media, params);
    assert "" + Widened(media) == Widened(media);
    var m := START.(value := Widened(media));
    if ps == [] {
      RunEnds(m);
    } else {
      SpecialQuestion();
      RunSpecial(m, '?', PairsText(ps));
      RunPairs(m.(media := Widened(media), value := "", mode := ParamsKey), ps);
    }
  }

  lemma SpecialQuestion()
    ensures Special(Media, '?')
  {
  }

  /** The two literal prefixes are told apart and stripped. */
  lemma BodyOf(prefix: string, body: string)
    requires KnownPrefix(prefix)
    ensures Parse(PrefixText(prefix) + (AERON_PREFIX + body))
         == match Run(START, body)
            case Failed(e) => Rejected(e)
            case Finished(m) => Parsed(Uri(prefix, m.media, m.params))
  {
    hide Run;
    var rest := AERON_PREFIX + body;
    assert rest[|AERON_PREFIX|..] == body;
    if prefix == "" {
      assert PrefixText(prefix) + rest == rest;
      assert rest[5] == ':' && SPY_PREFIX[5] == '-';
    } else {
      assert PrefixText(prefix) == SPY_PREFIX;
      assert (SPY_PREFIX + rest)[|SPY_PREFIX|..] == rest;
    }
  }

  // ---------------------------------------------------------------------------------------------
  // Only such text is accepted
  // ---------------------------------------------------------------------------------------------

  lemma {:induction false} SplitMedia(m: Machine, s: string) returns (media: string, ps: seq<Pair>)
    requires m.mode == Media && Run(m, s).Finished?
    ensures s == media + (if ps == [] then "" else "?" + PairsText(ps)) && Free(Media, media) && ValidPairs(ps)
    decreases |s|
  {
    media, ps := "", [];
    if s != [] {
      assert s == [s[0]] + s[1..];
      if s[0] == '?' {
        ps := SplitKey(Next(m, s[0]), s[1..]);
      } else {
        media, ps := SplitMedia(Next(m, s[0]), s[1..]);
        media := [s[0]] + media;
      }
    }
  }

  lemma {:induction false} SplitKey(m: Machine, s: string) returns (ps: seq<Pair>)
    requires m.mode == ParamsKey && Run(m, s).Finished?
    ensures ps != [] && s == PairsText(ps) && ValidPairs(ps)
    decreases |s|
  {
    assert s == [s[0]] + s[1..];
    if s[0] == '=' {
      var v, rest := SplitValue(Next(m, s[0]), s[1..]);
      ps := [("", v)] + rest;
      assert ps[1..] == rest;
      assert PairText(("", v)) == "=" + v;
    } else {
      var qs := SplitKey(Next(m, s[0]), s[1..]);
      ps := [([s[0]] + qs[0].0, qs[0].1)] + qs[1..];
      LongerFirstKey(s[0], qs);
      assert Free(ParamsKey, qs[0].0) && forall i | 1 <= i < |ps| :: ps[i] == qs[i];
    }
  }

  lemma LongerFirstKey(c: char, qs: seq<Pair>)
    requires qs != []
    ensures PairsText([([c] + qs[0].0, qs[0].1)] + qs[1..]) == [c] + PairsText(qs)
  {
    var ps := [([c] + qs[0].0, qs[0].1)] + qs[1..];
    assert ps[1..] == qs[1..];
    LongerKey(c, qs[0]);
    hide PairText;
    if |qs| > 1 {
      var p, rest := PairText(qs[0]), PairsText(qs[1..]);
      assert ([c] + p) + "|" + rest == [c] + (p + "|" + rest);
    }
  }

  lemma LongerKey(c: char, p: Pair)
    ensures PairText(([c] + p.0, p.1)) == [c] + PairText(p)
  {
  }

  lemma {:induction false} SplitValue(m: Machine, s: string) returns (v: string, ps: seq<Pair>)
    requires m.mode == ParamsValue && Run(m, s).Finished?
    ensures s == v + (if ps == [] then "" else "|" + PairsText(ps)) && Free(ParamsValue, v) && ValidPairs(ps)
    decreases |s|
  {
    v, ps := "", [];
    if s != [] {
      assert s == [s[0]] + s[1..];
      if s[0] == '|' {
        ps := SplitKey(Next(m, s[0]), s[1..]);
      } else {
        v, ps := SplitValue(Next(m, s[0]), s[1..]);
        v := [s[0]] + v;
      }
    }
  }

  ghost predicate IsText(s: string, prefix: string, media: string, ps: seq<Pair>) {
    KnownPrefix(prefix) && Free(Media, media) && ValidPairs(ps) && s == Text(prefix, media, ps)
  }

  lemma AcceptedIsText(s: string) returns (media: string, ps: seq<Pair>)
    requires Parse(s).Parsed?
    ensures IsText(s, Parse(s).uri.prefix, media, ps)
  {
    hide Run, PairsText, Free, Special, Parse;
    var body := BodyIn(s);
    media, ps := SplitMedia(START, body);
    var prefix, params := Parse(s).uri.prefix, if ps == [] then "" else "?" + PairsText(ps);
    assert PrefixText(prefix) + (AERON_PREFIX + (media + params)) == Text(prefix, media, ps);
  }

  lemma BodyIn(s: string) returns (body: string)
    requires Parse(s).Parsed?
    ensures var prefix := Parse(s).uri.prefix;
            KnownPrefix(prefix) && s == PrefixText(prefix) + (AERON_PREFIX + body) && Run(START, body).Finished?
  {
    hide Run;
    var spy := SPY_PREFIX <= s;
    var rest := if spy then s[|SPY_PREFIX|..] else s;
    body := rest[|AERON_PREFIX|..];
    assert rest == AERON_PREFIX + body;
    if spy {
      assert PrefixText(SPY_QUALIFIER) == SPY_PREFIX;
    } else {
      assert PrefixText("") + rest == rest;
    }
  }

  /** The parser accepts exactly the text of a known prefix, a media without '?' and ':', and parameters whose keys
      have no '=' and whose values have no '|'. */
  lemma AcceptedIff(s: string)
    ensures Parse(s).Parsed? <==> exists prefix, media, ps :: IsText(s, prefix, media, ps)
  {
    if Parse(s).Parsed? {
      var media, ps := AcceptedIsText(s);
    }
    forall prefix, media, ps | IsText(s, prefix, media, ps)
      ensures Parse(s).Parsed?
    {
      ParseText(prefix, media, ps);
    }
  }

  // ---------------------------------------------------------------------------------------------
  // Last value wins
  // ---------------------------------------------------------------------------------------------

  lemma {:induction false} Untouched(params: map<string, string>, ps: seq<Pair>, k: string)
    requires forall i | 0 <= i < |ps| :: Widened(ps[i].0) != k
    ensures k in Apply(params, ps) <==> k in params
    ensures k in params ==> Apply(params, ps)[k] == params[k]
    decreases |ps|
  {
    if ps != [] {
      Untouched(params[Widened(ps[0].0) := Widened(ps[0].1)], ps[1..], k);
    }
  }

  lemma {:induction false} LastApplied(params: map<string, string>, ps: seq<Pair>, i: nat)
    requires i < |ps| && forall j | i < j < |ps| :: Widened(ps[j].0) != Widened(ps[i].0)
    ensures Widened(ps[i].0) in Apply(params, ps) && Apply(params, ps)[Widened(ps[i].0)] == Widened(ps[i].1)
    decreases |ps|
  {
    var params1 := params[Widened(ps[0].0) := Widened(ps[0].1)];
    if i == 0 {
      Untouched(params1, ps[1..], Widened(ps[0].0));
    } else {
      LastApplied(params1, ps[1..], i - 1);
    }
  }

  lemma {:induction false} AppliedKey(ps: seq<Pair>, params: map<string, string>, k: string) returns (i: nat)
    requires k in Apply(params, ps) && k !in params
    ensures i < |ps| && k == Widened(ps[i].0) && Apply(params, ps)[k] == Widened(ps[i].1)
    ensures forall j | i < j < |ps| :: Widened(ps[j].0) != k
  {
    i := LastIndex(ps, k, params);
    LastApplied(params, ps, i);
  }

  lemma {:induction false} LastIndex(ps: seq<Pair>, k: string, params: map<string, string>) returns (i: nat)
    requires k in Apply(params, ps) && k !in params
    ensures i < |ps| && k == Widened(ps[i].0) && forall j | i < j < |ps| :: Widened(ps[j].0) != k
  {
    i := 0;
    if forall j | 0 <= j < |ps| :: Widened(ps[j].0) != k {
      Untouched(params, ps, k);
    } else {
      var n := |ps|;
      while Widened(ps[n - 1].0) != k
        invariant 0 < n <= |ps| && forall j | n <= j < |ps| :: Widened(ps[j].0) != k
        invariant exists j :: 0 <= j < |ps| && Widened(ps[j].0) == k
        decreases n
      {
        n := n - 1;
      }
      i := n - 1;
    }
  }

  /** In an accepted string each parameter has the value given for it last. */
  lemma LastValueWins(prefix: string, media: string, ps: seq<Pair>, k: string)
    requires KnownPrefix(prefix) && Free(Media, media) && ValidPairs(ps)
    ensures var r := Parse(Text(prefix, media, ps));
            && r.Parsed?
            && (k in r.uri.params <==> exists i :: 0 <= i < |ps| && Widened(ps[i].0) == k)
            && (k in r.uri.params ==>
                  exists i :: 0 <= i < |ps| && Widened(ps[i].0) == k && r.uri.params[k] == Widened(ps[i].1)
                              && forall j | i < j < |ps| :: Widened(ps[j].0) != k)
  {
    hide Parse, Text, Free;
    ParseText(prefix, media, ps);
    if k in Apply(map[], ps) {
      var i := AppliedKey(ps, map[], k);
    } else if exists i :: 0 <= i < |ps| && Widened(ps[i].0) == k {
      KeyIsApplied(ps, k);
    }
  }

  lemma {:induction false} KeyIsApplied(ps: seq<Pair>, k: string, params: map<string, string> := map[])
    requires k in params || exists i :: 0 <= i < |ps| && Widened(ps[i].0) == k
    ensures k in Apply(params, ps)
    decreases |ps|
  {
    if ps != [] {
      var params1 := params[Widened(ps[0].0) := Widened(ps[0].1)];
      if k !in params1 {
        var i :| 0 <= i < |ps| && Widened(ps[i].0) == k;
        assert ps[1..][i - 1] == ps[i];
      }
      KeyIsApplied(ps[1..], k, params1);
    }
  }

  // ---------------------------------------------------------------------------------------------
  // Widening
  // ---------------------------------------------------------------------------------------------

  lemma {:induction false} WidenedIsSameIffAscii(s: string)
    ensures |Widened(s)| >= |s|
    ensures Ascii(s) ==> Widened(s) == s
    ensures !Ascii(s) ==> |Widened(s)| > |s| && !Ascii(Widened(s))
  {
    if s != [] {
      WidenedIsSameIffAscii(s[1..]);
      assert s == [s[0]] + s[1..] && forall c | c in s[1..] :: c in s;
      assert forall c | c in Utf8(s[0]) :: c in Widened(s);
      assert forall c | c in Widened(s[1..]) :: c in Widened(s);
      if s[0] >= 128 as char {
        assert s[0] in s && Utf8(s[0])[0] in Utf8(s[0]);
      } else if Ascii(s[1..]) {
      } else {
        assert !Ascii(Widened(s[1..]));
      }
    }
  }

  lemma {:induction false} WidenedIsFree(mode: Mode, s: string)
    requires Free(mode, s)
    ensures Free(mode, Widened(s))
  {
    if s != [] {
      assert s[0] in s && forall c | c in s[1..] :: c in s;
      WidenedIsFree(mode, s[1..]);
    }
  }

  // ---------------------------------------------------------------------------------------------
  // Round trips
  // ---------------------------------------------------------------------------------------------

  /** What a parsed URI looks like: no part contains the character that ends it. */
  predicate Clean(u: Uri) {
    && KnownPrefix(u.prefix) && Free(Media, u.media)
    && forall k | k in u.params :: Free(ParamsKey, k) && Free(ParamsValue, u.params[k])
  }

  predicate AsciiUri(u: Uri) {
    Ascii(u.media) && forall k | k in u.params :: Ascii(k) && Ascii(u.params[k])
  }

  lemma ParsedIsClean(s: string)
    requires Parse(s).Parsed?
    ensures Clean(Parse(s).uri)
  {
    hide Parse, Text, Free;
    var media, ps := AcceptedIsText(s);
    var u := Parse(s).uri;
    ParseText(u.prefix, media, ps);
    WidenedIsFree(Media, media);
    forall k | k in u.params
      ensures Free(ParamsKey, k) && Free(ParamsValue, u.params[k])
    {
      var i := AppliedKey(ps, map[], k);
      WidenedIsFree(ParamsKey, ps[i].0);
      WidenedIsFree(ParamsValue, ps[i].1);
    }
  }

  ghost function PrintedPairs(u: Uri): (ps: seq<Pair>) {
    PairsIn(SortedKeys(u.params.Keys), u.params)
  }

  lemma ParsePrinted(u: Uri)
    requires Clean(u)
    ensures Parse(Print(u)) == Parsed(Uri(u.prefix, Widened(u.media), Apply(map[], PrintedPairs(u))))
  {
    hide Parse, Text, Free;
    ParseText(u.prefix, u.media, PrintedPairs(u));
  }

  /** When all keys are ASCII, the printed parameters set each key once. */
  lemma PrintedPairsApplied(u: Uri, k: string)
    requires (forall key | key in u.params :: Ascii(key)) && k in u.params
    ensures k in Apply(map[], PrintedPairs(u)) && Apply(map[], PrintedPairs(u))[k] == Widened(u.params[k])
  {
    hide Ascii, Apply, Widened;
    var keys, ps := SortedKeys(u.params.Keys), PrintedPairs(u);
    var i :| 0 <= i < |keys| && keys[i] == k;
    WidenedIsSameIffAscii(k);
    forall j | i < j < |ps|
      ensures Widened(ps[j].0) != Widened(ps[i].0)
    {
      WidenedIsSameIffAscii(keys[j]);
      assert Less(keys[i], keys[j]);
      LessTotal(keys[i], keys[j]);
    }
    LastApplied(map[], ps, i);
  }

  lemma PrintedKeysApplied(u: Uri, k: string)
    requires k in Apply(map[], PrintedPairs(u))
    ensures exists key :: key in u.params && k == Widened(key)
  {
    hide Apply, Widened;
    var i := AppliedKey(PrintedPairs(u), map[], k);
    assert SortedKeys(u.params.Keys)[i] in u.params;
  }

  lemma {:induction false} LengthBound(of: set<string>) returns (n: nat)
    ensures forall k | k in of :: |k| <= n
    decreases |of|
  {
    n := 0;
    if k :| k in of {
      n := LengthBound(of - {k});
      if |k| > n { n := |k|; }
    }
  }

  /** Widening a non-ASCII key for ever would need ever longer keys. */
  lemma {:induction false} NoNonAsciiKey(keys: set<string>, k: string, bound: nat)
    requires k in keys && (forall key | key in keys :: Widened(key) in keys && |key| <= bound)
    ensures Ascii(k)
    decreases bound - |k|
  {
    WidenedIsSameIffAscii(k);
    if !Ascii(k) {
      NoNonAsciiKey(keys, Widened(k), bound);
    }
  }

  lemma RoundTripNeedsAsciiKeys(u: Uri, k: string)
    requires Clean(u) && Parse(Print(u)) == Parsed(u) && k in u.params
    ensures Ascii(k)
  {
    hide Parse, Print, Apply, Ascii, Free, Widened;
    ParsePrinted(u);
    forall key | key in u.params.Keys
      ensures Widened(key) in u.params.Keys
    {
      PrintedKeyIsApplied(u, key);
    }
    var bound := LengthBound(u.params.Keys);
    NoNonAsciiKey(u.params.Keys, k, bound);
  }

  /** Parsing what was printed gives the URI back if and only if its prefix is empty or aeron-spy, media has no '?' or
      ':', keys have no '=', values have no '|', and all of it is ASCII. */
  lemma RoundTripIff(u: Uri)
    ensures Parse(Print(u)) == Parsed(u) <==> Clean(u) && AsciiUri(u)
  {
    hide Parse, Print, Apply, Ascii, Free, Widened, Clean, PrintedPairs;
    if Clean(u) && AsciiUri(u) {
      ParsePrinted(u);
      WidenedIsSameIffAscii(u.media);
      var params := Apply(map[], PrintedPairs(u));
      forall k | k in u.params
        ensures k in params && params[k] == u.params[k]
      {
        PrintedPairsApplied(u, k);
        WidenedIsSameIffAscii(u.params[k]);
      }
      forall k | k in params
        ensures k in u.params
      {
        PrintedKeysApplied(u, k);
        var key :| key in u.params && k == Widened(key);
        WidenedIsSameIffAscii(key);
      }
      assert params == u.params;
    }
    if Parse(Print(u)) == Parsed(u) {
      ParsedIsClean(Print(u));
      ParsePrinted(u);
      WidenedIsSameIffAscii(u.media);
      forall k | k in u.params
        ensures Ascii(k)
      {
        RoundTripNeedsAsciiKeys(u, k);
      }
      forall k | k in u.params
        ensures Ascii(u.params[k])
      {
        PrintedPairsApplied(u, k);
        WidenedIsSameIffAscii(u.params[k]);
      }
    }
  }

  /** A separator in a value, and a byte above 127. */
  lemma RoundTripFails()
    ensures var u := Uri("", "udp", map["alias" := "a|b=c"]); Parse(Print(u)) != Parsed(u)
    ensures var u := Uri("", [200 as char], map[]); Parse(Print(u)) != Parsed(u)
  {
    hide Parse, Print;
    var u, v := Uri("", "udp", map["alias" := "a|b=c"]), Uri("", [200 as char], map[]);
    RoundTripIff(u);
    var value := u.params["alias"];
    assert value[1] in value && Special(ParamsValue, value[1]);
    assert !Free(ParamsValue, u.params["alias"]);
    RoundTripIff(v);
    assert v.media[0] in v.media;
  }

  /** A URI that is not ASCII is still not ASCII once printed and parsed. */
  lemma NonAsciiStays(u: Uri)
    requires Clean(u) && !AsciiUri(u)
    ensures !AsciiUri(Uri(u.prefix, Widened(u.media), Apply(map[], PrintedPairs(u))))
  {
    hide Apply, Ascii, Widened, PrintedPairs;
    var params := Apply(map[], PrintedPairs(u));
    if !Ascii(u.media) {
      WidenedIsSameIffAscii(u.media);
    } else if exists k :: k in u.params && !Ascii(k) {
      var k :| k in u.params && !Ascii(k);
      WidenedIsSameIffAscii(k);
      PrintedKeyIsApplied(u, k);
    } else {
      var k :| k in u.params && !Ascii(u.params[k]);
      PrintedPairsApplied(u, k);
      WidenedIsSameIffAscii(u.params[k]);
    }
  }

  lemma PrintedKeyIsApplied(u: Uri, k: string)
    requires k in u.params
    ensures Widened(k) in Apply(map[], PrintedPairs(u))
  {
    hide Apply, Widened;
    var keys := SortedKeys(u.params.Keys);
    var i :| 0 <= i < |keys| && keys[i] == k;
    assert PrintedPairs(u)[i].0 == k;
    KeyIsApplied(PrintedPairs(u), Widened(k));
  }

  /** A clean URI's printed form is a fixed point of parsing and printing if and only if the URI is ASCII. */
  lemma FixedPointIff(u: Uri)
    requires Clean(u)
    ensures Parse(Print(u)).Parsed? && (Print(Parse(Print(u)).uri) == Print(u) <==> AsciiUri(u))
  {
    hide Parse, Print, Apply, Ascii, Free, Widened, PrintedPairs, AsciiUri;
    ParsePrinted(u);
    RoundTripIff(u);
    var u' := Parse(Print(u)).uri;
    if !AsciiUri(u) {
      NonAsciiStays(u);
      RoundTripIff(u');
    }
  }

  /** What an accepted string prints as is a canonical form, which parses to the same URI and prints as itself, if and
      only if the parsed URI is ASCII; it is when the string is. */
  lemma CanonicalIff(s: string)
    requires Parse(s).Parsed?
    ensures var u := Parse(s).uri;
            && (Parse(Print(u)) == Parsed(u) <==> AsciiUri(u)) && (Ascii(s) ==> AsciiUri(u))
            && Parse(Print(u)).Parsed? && (Print(Parse(Print(u)).uri) == Print(u) <==> AsciiUri(u))
  {
    hide Parse, Print, Text, Apply, Free, Widened;
    var u := Parse(s).uri;
    ParsedIsClean(s);
    RoundTripIff(u);
    FixedPointIff(u);
    var media, ps := AcceptedIsText(s);
    ParseText(u.prefix, media, ps);
    if Ascii(s) {
      PartsAreIn(u.prefix, media, ps);
      WidenedIsSameIffAscii(media);
      forall k | k in u.params
        ensures Ascii(k) && Ascii(u.params[k])
      {
        var i := AppliedKey(ps, map[], k);
        WidenedIsSameIffAscii(ps[i].0);
        WidenedIsSameIffAscii(ps[i].1);
      }
    }
  }

  lemma PartsAreIn(prefix: string, media: string, ps: seq<Pair>)
    requires Ascii(Text(prefix, media, ps))
    ensures Ascii(media) && forall i | 0 <= i < |ps| :: Ascii(ps[i].0) && Ascii(ps[i].1)
  {
    hide PairsText;
    var s := Text(prefix, media, ps);
    assert forall c | c in media :: c in s;
    if ps != [] {
      assert forall c | c in PairsText(ps) :: c in s;
      PairsAreIn(ps);
    }
  }

  lemma {:induction false} PairsAreIn(ps: seq<Pair>)
    requires Ascii(PairsText(ps))
    ensures forall i | 0 <= i < |ps| :: Ascii(ps[i].0) && Ascii(ps[i].1)
  {
    if ps != [] {
      var s := PairsText(ps);
      assert forall c | c in ps[0].0 :: c in PairText(ps[0]);
      assert forall c | c in ps[0].1 :: c in PairText(ps[0]);
      assert forall c | c in PairText(ps[0]) :: c in s;
      if |ps| > 1 {
        assert forall c | c in PairsText(ps[1..]) :: c in s;
        PairsAreIn(ps[1..]);
        assert forall i | 1 <= i < |ps| :: ps[i] == ps[1..][i - 1];
      }
    }
  }
}
