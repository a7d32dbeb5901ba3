/** getParameterByName(name, url): look a parameter up in a URL. player.js builds the regular
    expression `[?&]` + name + `(=([^&#]*)|&|#|$)` (after escaping `[` and `]` in name) and takes
    its leftmost match; here that match is a scan over the characters of url, proved equal to a
    declarative statement of "the leftmost position where the key occurs whole". */
module QueryString {

  datatype Option<T> = None | Some(value: T)

  /** What the lookup returns: null, a string, or the URIError that decodeURIComponent throws on
      a malformed escape. */
  datatype Lookup = Null | Value(text: string) | DecodeError

  /** A name whose characters all match themselves in the regular expression player.js builds:
      none of the metacharacters it leaves unescaped (it escapes only `[` and `]`). */
  predicate PlainName(name: string) {
    forall k :: 0 <= k < |name| ==> name[k] !in "\\^$.|?*+(){}"
  }

  /** The characters that end a key: the alternatives `=`, `&` and `#`. */
  predicate EndsKey(c: char) {
    c == '=' || c == '&' || c == '#'
  }

  /** The regular expression matches at position i: a '?' or '&' there, then name, then '=',
      '&', '#' or the end of url. */
  predicate KeyAt(name: string, url: string, i: nat) {
    i < |url| && (url[i] == '?' || url[i] == '&')
    && i + 1 + |name| <= |url| && url[i + 1..i + 1 + |name|] == name
    && (i + 1 + |name| == |url| || EndsKey(url[i + 1 + |name|]))
  }

  /** The `[^&#]*` group: the longest prefix of s with neither '&' nor '#'. */
  function TakeValue(s: string): (v: string)
    ensures |v| <= |s| && v == s[..|v|]
    ensures forall k :: 0 <= k < |v| ==> v[k] != '&' && v[k] != '#'
    ensures |v| < |s| ==> s[|v|] == '&' || s[|v|] == '#'
  {
    if s == [] || s[0] == '&' || s[0] == '#' then [] else [s[0]] + TakeValue(s[1..])
  }

  /** The second capture group of a match at i, with an absent group read as '': the text after
      '=' when the key is followed by '=', and '' when it is followed by '&', '#' or the end. */
  function GroupAt(name: string, url: string, i: nat): (g: string)
    requires KeyAt(name, url, i)
    ensures g != "" ==> i + 1 + |name| < |url| && url[i + 1 + |name|] == '='
    ensures var start := i + 2 + |name|;
      g != "" ==> start + |g| <= |url| && g == url[start..start + |g|]
    ensures forall k :: 0 <= k < |g| ==> g[k] != '&' && g[k] != '#'
  {
    var j := i + 1 + |name|;
    if j < |url| && url[j] == '=' then TakeValue(url[j + 1..]) else ""
  }

  /** The regular expression's search from position i onward: nothing exactly when no position
      matches; which value a match gives is stated by LeftmostWins. */
  function Scan(name: string, url: string, i: nat): (r: Option<string>)
    requires i <= |url|
    ensures r.None? <==> forall k :: i <= k < |url| ==> !KeyAt(name, url, k)
    ensures r.Some? ==> |r.value| < |url| - i
    ensures r.Some? ==> forall k :: 0 <= k < |r.value| ==> r.value[k] != '&' && r.value[k] != '#'
    decreases |url| - i
  {
    if i == |url| then None
    else if KeyAt(name, url, i) then Some(GroupAt(name, url, i))
    else Scan(name, url, i + 1)
  }

  /** `results[2]` of the regular expression on url, when there is a match: found exactly when
      the key occurs whole somewhere, and then a piece of url holding neither '&' nor '#'. */
  function MatchedValue(name: string, url: string): (r: Option<string>)
    ensures r.None? <==> forall k :: 0 <= k < |url| ==> !KeyAt(name, url, k)
    ensures r.Some? ==> |r.value| < |url|
    ensures r.Some? ==> forall k :: 0 <= k < |r.value| ==> r.value[k] != '&' && r.value[k] != '#'
  {
    Scan(name, url, 0)
  }

  /** `.replace(/\+/g, " ")`: every '+' becomes a space and nothing else changes. */
  function PlusToSpace(s: string): (r: string)
    ensures |r| == |s|
    ensures forall k :: 0 <= k < |s| ==> r[k] == (if s[k] == '+' then ' ' else s[k])
  {
    if s == [] then [] else [if s[0] == '+' then ' ' else s[0]] + PlusToSpace(s[1..])
  }

  /** getParameterByName(name, url), with decodeURIComponent passed in as decode (None stands
      for the URIError it throws). An empty or absent value is returned as '' without decoding. */
  function GetParameterByName(name: string, url: string, decode: string -> Option<string>)
    : (r: Lookup)
    requires PlainName(name)
    ensures r == Null <==> forall k :: 0 <= k < |url| ==> !KeyAt(name, url, k)
    ensures MatchedValue(name, url) == Some("") ==> r == Value("")
  {
    match MatchedValue(name, url)
    case None => Null
    case Some(v) =>
      if v == "" then Value("")
      else
        match decode(PlusToSpace(v))
        case None => DecodeError
        case Some(d) => Value(d)
  }

  /** The leftmost whole occurrence of the key decides: its group is the lookup's raw value. */
  lemma {:induction false} LeftmostWins(name: string, url: string, i: nat)
    requires KeyAt(name, url, i)
    requires forall m :: 0 <= m < i ==> !KeyAt(name, url, m)
    ensures MatchedValue(name, url) == Some(GroupAt(name, url, i))
  {
    ScanFrom(name, url, 0, i);
  }

  lemma {:induction false} ScanFrom(name: string, url: string, start: nat, i: nat)
    requires start <= i && KeyAt(name, url, i)
    requires forall m :: start <= m < i ==> !KeyAt(name, url, m)
    ensures Scan(name, url, start) == Some(GroupAt(name, url, i))
    decreases i - start
  {
    if start < i {
      ScanFrom(name, url, start + 1, i);
    }
  }

  /** A key followed by '&', '#' or the end of url, with no '=', yields ''. */
  lemma {:induction false} KeyWithoutValue(name: string, url: string, i: nat, decode: string -> Option<string>)
    requires PlainName(name) && KeyAt(name, url, i)
    requires forall m :: 0 <= m < i ==> !KeyAt(name, url, m)
    requires i + 1 + |name| == |url| || url[i + 1 + |name|] != '='
    ensures GetParameterByName(name, url, decode) == Value("")
  {
    LeftmostWins(name, url, i);
  }

  /** A key followed by '=' yields the text after '=' up to, and not including, the first '&'
      or '#' (or to the end of url): a piece of url that holds neither. */
  lemma {:induction false} ValueAfterEquals(name: string, url: string, i: nat)
    requires KeyAt(name, url, i)
    requires forall m :: 0 <= m < i ==> !KeyAt(name, url, m)
    requires i + 1 + |name| < |url| && url[i + 1 + |name|] == '='
    ensures var start := i + 2 + |name|; var v := TakeValue(url[start..]);
      MatchedValue(name, url) == Some(v)
      && start + |v| <= |url| && v == url[start..start + |v|]
      && (forall k :: 0 <= k < |v| ==> v[k] != '&' && v[k] != '#')
      && (start + |v| < |url| ==> url[start + |v|] == '&' || url[start + |v|] == '#')
  {
    LeftmostWins(name, url, i);
    var start := i + 2 + |name|;
    var v := TakeValue(url[start..]);
    assert url[start..][..|v|] == url[start..start + |v|];
  }

  /** Where the value has no '%' escapes (and so decodeURIComponent returns it unchanged), the
      result is the value with each '+' turned into a space. */
  lemma {:induction false} PlainValueDecoded(name: string, url: string, v: string, decode: string -> Option<string>)
    requires PlainName(name)
    requires MatchedValue(name, url) == Some(v) && v != "" && '%' !in v
    requires forall t :: '%' !in t ==> decode(t) == Some(t)
    ensures GetParameterByName(name, url, decode) == Value(PlusToSpace(v))
  {
    var w := PlusToSpace(v);
    forall k | 0 <= k < |w| ensures w[k] != '%' {
      assert v[k] != '%';
    }
    assert '%' !in w;
  }

  /** The key must match whole: 'a' does not match the key 'ab' ... */
  lemma WholeKeyOnly()
    ensures MatchedValue("a", "?ab=1") == None
  {
    assert !KeyAt("a", "?ab=1", 0);
  }

  /** ... but a later whole 'a' does. */
  lemma LaterWholeKey()
    ensures MatchedValue("a", "?ab=1&a=2") == Some("2")
  {
    var url := "?ab=1&a=2";
    forall m | 0 <= m < 5 ensures !KeyAt("a", url, m) {
      assert m == 0 || (url[m] != '?' && url[m] != '&');
    }
    assert KeyAt("a", url, 5);
    LeftmostWins("a", url, 5);
    assert url[8..] == "2";
    assert TakeValue("2") == "2";
  }

  /** The first occurrence wins over later ones. */
  lemma FirstOccurrenceWins()
    ensures MatchedValue("a", "?a=1&a=2") == Some("1")
  {
    var url := "?a=1&a=2";
    assert KeyAt("a", url, 0);
    LeftmostWins("a", url, 0);
    assert url[3..] == "1&a=2";
    assert TakeValue("1&a=2") == "1";
  }

  /** '#' ends the key, so the key is present with the empty value. */
  lemma HashEndsKey()
    ensures MatchedValue("a", "x?a#a=3") == Some("")
  {
    var url := "x?a#a=3";
    assert KeyAt("a", url, 1);
    LeftmostWins("a", url, 1);
  }
}
