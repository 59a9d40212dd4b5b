/** Channel URIs (aeron/channeluri.go): the parser, the printer and how they invert each other. A string is a sequence
    of bytes, written as characters below 256. */
module ChannelUri {
  const SPY_QUALIFIER: string := "aeron-spy"
  const SPY_PREFIX: string := "aeron-spy:"
  const AERON_PREFIX: string := "aeron:"

  datatype Uri = Uri(prefix: string, media: string, params: map<string, string>)

  datatype Error = NotAeron | ColonInMedia | NoMoreInput

  datatype Result = Parsed(uri: Uri) | Rejected(error: Error)

  datatype Mode = Media | ParamsKey | ParamsValue

  type Pair = (string, string)

  // ---------------------------------------------------------------------------------------------
  // Parsing
  // ---------------------------------------------------------------------------------------------

  /** `string(c)` for a byte c: its UTF-8 form as a code point, which for c >= 128 takes two bytes. */
  function Utf8(c: char): (s: string)
    ensures |s| == 1 <==> c < 128 as char
    ensures c < 128 as char ==> s == [c]
    ensures c >= 128 as char ==> |s| == 2 && forall d | d in s :: d >= 128 as char
  {
    if c < 128 as char then [c] else [(0xC0 + c as int / 64) as char, (0x80 + c as int % 64) as char]
  }

  function Widened(s: string): (t: string) {
    if s == [] then [] else Utf8(s[0]) + Widened(s[1..])
  }

  /** The parser's variables; media and params are already those of the result. */
  datatype Machine = Machine(mode: Mode, media: string, params: map<string, string>, key: string, value: string)

  datatype Outcome = Finished(m: Machine) | Failed(error: Error)

  predicate Special(mode: Mode, c: char) {
    match mode
    case Media => c == '?' || c == ':'
    case ParamsKey => c == '='
    case ParamsValue => c == '|'
  }

  function Next(m: Machine, c: char): (m': Machine) {
    if !Special(m.mode, c) then m.(value := m.value + Utf8(c))
    else match m.mode
      case Media => m.(media := m.value, value := "", mode := ParamsKey)
      case ParamsKey => m.(key := m.value, value := "", mode := ParamsValue)
      case ParamsValue => m.(params := m.params[m.key := m.value], value := "", mode := ParamsKey)
  }

  function Finish(m: Machine): (o: Outcome) {
    match m.mode
    case Media => Finished(m.(media := m.value))
    case ParamsValue => Finished(m.(params := m.params[m.key := m.value]))
    case ParamsKey => Failed(NoMoreInput)
  }

  function Run(m: Machine, s: string): (o: Outcome)
    decreases |s|
  {
    if s == [] then Finish(m)
    else if m.mode == Media && s[0] == ':' then Failed(ColonInMedia)
    else Run(Next(m, s[0]), s[1..])
  }

  const START := Machine(Media, "", map[], "", "")

  function Parse(s: string): (r: Result) {
    var spy := SPY_PREFIX <= s;
    var rest := if spy then s[|SPY_PREFIX|..] else s;
    if !(AERON_PREFIX <= rest) then Rejected(NotAeron)
    else match Run(START, rest[|AERON_PREFIX|..])
      case Failed(e) => Rejected(e)
      case Finished(m) => Parsed(Uri(if spy then SPY_QUALIFIER else "", m.media, m.params))
  }

  /** `ParseChannelUri`. */
  method ParseChannelUri(text: string) returns (r: Result)
    ensures r == Parse(text)
  {
    var uriStr, prefix := text, "";
    if SPY_PREFIX <= uriStr {
      prefix := SPY_QUALIFIER;
      uriStr := uriStr[|SPY_PREFIX|..];
    }
    if !(AERON_PREFIX <= uriStr) {
      return Rejected(NotAeron);
    }
    uriStr := uriStr[|AERON_PREFIX|..];
    ghost var whole := uriStr;
    var mode, value, key := Media, "", "";
    var media, params: map<string, string> := "", map[];
    while |uriStr| > 0
      invariant Run(START, whole) == Run(Machine(mode, media, params, key, value), uriStr)
      decreases |uriStr|
    {
      var c := uriStr[0];
      match mode {
        case Media =>
          if c == '?' {
            media, value, mode := value, "", ParamsKey;
          } else if c == ':' {
            return Rejected(ColonInMedia);
          } else {
            value := value + Utf8(c);
          }
        case ParamsKey =>
          if c == '=' {
            key, value, mode := value, "", ParamsValue;
          } else {
            value := value + Utf8(c);
          }
        case ParamsValue =>
          if c == '|' {
            params, value, mode := params[key := value], "", ParamsKey;
          } else {
            value := value + Utf8(c);
          }
      }
      uriStr := uriStr[1..];
    }
    match mode {
      case Media => media := value;
      case ParamsValue => params := params[key := value];
      case ParamsKey => return Rejected(NoMoreInput);
    }
    r := Parsed(Uri(prefix, media, params));
  }

  // ---------------------------------------------------------------------------------------------
  // Printing
  // ---------------------------------------------------------------------------------------------

  /** The byte order of `sort.Strings`. */
  predicate Less(a: string, b: string) {
    b != [] && (a == [] || a[0] < b[0] || (a[0] == b[0] && Less(a[1..], b[1..])))
  }

  ghost predicate Sorted(keys: seq<string>) {
    forall i, j | 0 <= i < j < |keys| :: Less(keys[i], keys[j])
  }

  ghost predicate IsSortedOrder(keys: seq<string>, of: set<string>) {
    Sorted(keys) && forall k :: k in keys <==> k in of
  }

  function Insert(keys: seq<string>, k: string): (r: seq<string>)
    ensures |r| == |keys| + 1
  {
    if keys == [] then [k] else if Less(k, keys[0]) then [k] + keys else [keys[0]] + Insert(keys[1..], k)
  }

  function PairText(p: Pair): (s: string) {
    p.0 + "=" + p.1
  }

  /** Parameters with separators between them. */
  function PairsText(ps: seq<Pair>): (s: string) {
    if ps == [] then "" else if |ps| == 1 then PairText(ps[0]) else PairText(ps[0]) + "|" + PairsText(ps[1..])
  }

  function PrefixText(prefix: string): (s: string) {
    if prefix == "" then "" else if prefix[|prefix| - 1] == ':' then prefix else prefix + ":"
  }

  /** A URI as text: any prefix, media and list of parameters. */
  function Text(prefix: string, media: string, ps: seq<Pair>): (s: string) {
    PrefixText(prefix) + AERON_PREFIX + media + (if ps == [] then "" else "?" + PairsText(ps))
  }

  function PairsIn(keys: seq<string>, params: map<string, string>): (ps: seq<Pair>)
    requires forall i | 0 <= i < |keys| :: keys[i] in params
    ensures |ps| == |keys| && forall i | 0 <= i < |keys| :: ps[i] == (keys[i], params[keys[i]])
  {
    seq(|keys|, i requires 0 <= i < |keys| => (keys[i], params[keys[i]]))
  }

  lemma {:induction a} LessTransitive(a: string, b: string, c: string)
    requires Less(a, b) && Less(b, c)
    ensures Less(a, c)
  {
    if a != [] && a[0] == b[0] == c[0] {
      LessTransitive(a[1..], b[1..], c[1..]);
    }
  }

  lemma {:induction a} LessTotal(a: string, b: string)
    ensures a == b || Less(a, b) || Less(b, a)
    ensures !(Less(a, b) && Less(b, a))
  {
    if a != [] && b != [] && a[0] == b[0] {
      LessTotal(a[1..], b[1..]);
      assert a == [a[0]] + a[1..] && b == [b[0]] + b[1..];
    }
  }

  lemma {:induction false} InsertHas(keys: seq<string>, k: string, x: string)
    ensures x in Insert(keys, k) <==> x in keys || x == k
  {
    if keys != [] && !Less(k, keys[0]) {
      InsertHas(keys[1..], k, x);
      assert x in keys <==> x == keys[0] || x in keys[1..];
    }
  }

  lemma {:induction false} InsertSorted(keys: seq<string>, k: string)
    requires Sorted(keys) && k !in keys
    ensures Sorted(Insert(keys, k))
  {
    if keys == [] {
    } else if Less(k, keys[0]) {
      forall j | 0 < j < |keys| { LessTransitive(k, keys[0], keys[j]); }
    } else {
      var rest := Insert(keys[1..], k);
      InsertSorted(keys[1..], k);
      LessTotal(k, keys[0]);
      forall j | 0 <= j < |rest|
        ensures Less(keys[0], rest[j])
      {
        InsertHas(keys[1..], k, rest[j]);
      }
    }
  }

  /** A set has one sorted order only, so printing is deterministic. */
  lemma {:induction false} SortedUnique(a: seq<string>, b: seq<string>, of: set<string>)
    requires IsSortedOrder(a, of) && IsSortedOrder(b, of)
    ensures a == b
    decreases |a|
  {
    assert a != [] ==> a[0] in of && a[0] in b;
    assert b != [] ==> b[0] in of && b[0] in a;
    if a != [] {
      FirstIsLeast(a, of, b[0]);
      FirstIsLeast(b, of, a[0]);
      LessTotal(a[0], b[0]);
      DropFirst(a, of);
      DropFirst(b, of);
      SortedUnique(a[1..], b[1..], of - {a[0]});
      assert a == [a[0]] + a[1..] && b == [b[0]] + b[1..];
    }
  }

  lemma FirstIsLeast(a: seq<string>, of: set<string>, k: string)
    requires IsSortedOrder(a, of) && a != [] && (k in of || k in a)
    ensures a[0] == k || Less(a[0], k)
  {
    var i :| 0 <= i < |a| && a[i] == k;
  }

  lemma DropFirst(a: seq<string>, of: set<string>)
    requires IsSortedOrder(a, of) && a != []
    ensures IsSortedOrder(a[1..], of - {a[0]})
  {
    forall k
      ensures k in a[1..] <==> k in of - {a[0]}
    {
      assert k in a <==> k == a[0] || k in a[1..];
      if k in a[1..] {
        var j :| 1 <= j < |a| && a[j] == k;
        LessTotal(a[0], a[j]);
      }
    }
  }

  lemma {:induction false} SortedOrderExists(of: set<string>) returns (keys: seq<string>)
    ensures IsSortedOrder(keys, of)
    decreases |of|
  {
    keys := [];
    if k :| k in of {
      var rest := of - {k};
      var ks := SortedOrderExists(rest);
      InsertSorted(ks, k);
      forall x { InsertHas(ks, k, x); }
      keys := Insert(ks, k);
    }
  }

  ghost function SortedKeys(of: set<string>): (keys: seq<string>)
    ensures IsSortedOrder(keys, of)
  {
    assert exists ks :: IsSortedOrder(ks, of) by { var ks := SortedOrderExists(of); }
    var ks :| IsSortedOrder(ks, of); ks
  }

  /** What a URI prints as. */
  ghost function Print(u: Uri): (s: string) {
    Text(u.prefix, u.media, PairsIn(SortedKeys(u.params.Keys), u.params))
  }

  /** Parameters each followed by a separator, as the printing loop builds them. */
  function Terminated(ps: seq<Pair>): (s: string) {
    if ps == [] then "" else Terminated(ps[..|ps| - 1]) + PairText(ps[|ps| - 1]) + "|"
  }

  lemma {:induction false} TerminatedFirst(ps: seq<Pair>)
    requires ps != []
    ensures Terminated(ps) == PairText(ps[0]) + "|" + Terminated(ps[1..])
    decreases |ps|
  {
    hide PairText;
    var last := |ps| - 1;
    if last == 0 {
      assert ps[..0] == [] && ps[1..] == [];
    } else {
      TerminatedFirst(ps[..last]);
      assert ps[..last][1..] == ps[1..][..last - 1];
    }
  }

  /** Dropping the last separator leaves separators between the parameters only. */
  lemma {:induction false} DropLastSeparator(ps: seq<Pair>)
    requires ps != []
    ensures Terminated(ps) == PairsText(ps) + "|"
    decreases |ps|
  {
    hide PairText;
    TerminatedFirst(ps);
    if |ps| > 1 {
      DropLastSeparator(ps[1..]);
    } else {
      assert ps[1..] == [];
    }
  }

  /** `String`. */
  method String(u: Uri) returns (result: string)
    ensures result == Print(u)
  {
    result := "";
    if u.prefix != "" {
      result := result + u.prefix;
      if u.prefix[|u.prefix| - 1] != ':' {
        result := result + ":";
      }
    }
    result := result + AERON_PREFIX;
    result := result + u.media;
    ghost var head := result;
    var params := ParamsText(u.params);
    result := result + params;
    assert head == PrefixText(u.prefix) + AERON_PREFIX + u.media;
  }

  /** The second half of `String`. */
  method ParamsText(params: map<string, string>) returns (result: string)
    ensures var ps := PairsIn(SortedKeys(params.Keys), params);
            result == if ps == [] then "" else "?" + PairsText(ps)
  {
    hide PairText, PairsText;
    result := "";
    var sortedKeys := Keys(params);
    NoKeys(sortedKeys, params);
    if |params| > 0 {
      result := result + "?";
      ghost var ps := PairsIn(sortedKeys, params);
      assert "?" + Terminated([]) == "?";
      for i := 0 to |sortedKeys|
        invariant result == "?" + Terminated(ps[..i])
      {
        var k := sortedKeys[i];
        OneMorePair(ps, i);
        result := result + (k + "=" + params[k] + "|");
      }
      assert ps[..|sortedKeys|] == ps;
      DropLastSeparator(ps);
      result := result[..|result| - 1];
    }
  }

  lemma OneMorePair(ps: seq<Pair>, i: nat)
    requires i < |ps|
    ensures "?" + Terminated(ps[..i + 1]) == "?" + Terminated(ps[..i]) + (ps[i].0 + "=" + ps[i].1 + "|")
  {
    assert ps[..i + 1][..i] == ps[..i];
  }

  /** The map's keys in order; each one is put in its place as it is met. */
  method Keys(params: map<string, string>) returns (keys: seq<string>)
    ensures keys == SortedKeys(params.Keys)
  {
    keys := [];
    var remaining := params.Keys;
    while exists k :: k in remaining
      invariant remaining <= params.Keys && IsSortedOrder(keys, params.Keys - remaining)
      decreases |remaining|
    {
      var k :| k in remaining;
      InsertSorted(keys, k);
      forall x { InsertHas(keys, k, x); }
      keys := Insert(keys, k);
      remaining := remaining - {k};
    }
    SortedUnique(keys, SortedKeys(params.Keys), params.Keys);
  }

  lemma NoKeys(keys: seq<string>, params: map<string, string>)
    requires keys == SortedKeys(params.Keys)
    ensures keys == [] <==> |params| == 0
  {
    if keys != [] { assert keys[0] in params; }
    if |params| != 0 { assert params.Keys != {}; var k :| k in params; assert k in keys; }
  }
}
