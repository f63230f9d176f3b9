/** The classifier that turns what the user pasted after the OAuth login (the
    whole redirect URL, a bare query string, or the code alone) into an
    authorization code and an OAuth state, and the decision the command-line
    helper takes on its result. The server carries a textually identical copy of
    the classifier, so one definition stands for both. */
module CodeState {
  import opened Outcomes

  /** Python's str.isspace for one character: the characters str.strip() removes. */
  predicate IsSpace(c: char) {
    || ('\t' <= c <= '\r')
    || ('\U{001C}' <= c <= ' ')
    || c == '\U{0085}' || c == '\U{00A0}' || c == '\U{1680}'
    || ('\U{2000}' <= c <= '\U{200A}')
    || c == '\U{2028}' || c == '\U{2029}' || c == '\U{202F}' || c == '\U{205F}' || c == '\U{3000}'
  }

  /** The first index at or after i that is not whitespace, or |s|. */
  function SkipSpace(s: string, i: nat): (k: nat)
    requires i <= |s|
    ensures i <= k <= |s|
    ensures forall m :: i <= m < k ==> IsSpace(s[m])
    ensures k < |s| ==> !IsSpace(s[k])
    decreases |s| - i
  {
    if i < |s| && IsSpace(s[i]) then SkipSpace(s, i + 1) else i
  }

  /** The last index at or before j, and above lo, that follows a
      non-whitespace character, or lo. */
  function BackSpace(s: string, lo: nat, j: nat): (k: nat)
    requires lo <= j <= |s|
    ensures lo <= k <= j
    ensures forall m :: k <= m < j ==> IsSpace(s[m])
    ensures k > lo ==> !IsSpace(s[k - 1])
  {
    if j > lo && IsSpace(s[j - 1]) then BackSpace(s, lo, j - 1) else j
  }

  /** Python's str.strip() with no argument: the input without its whitespace ends. */
  function Strip(s: string): (r: string)
    ensures exists i, j ::
      (&& 0 <= i <= j <= |s| && r == s[i..j]
       && (forall k :: 0 <= k < i ==> IsSpace(s[k]))
       && (forall k :: j <= k < |s| ==> IsSpace(s[k])))
    ensures r != [] ==> !IsSpace(r[0]) && !IsSpace(r[|r| - 1])
    ensures r == [] <==> forall i :: 0 <= i < |s| ==> IsSpace(s[i])
  {
    var i := SkipSpace(s, 0);
    var j := BackSpace(s, i, |s|);
    assert i < j ==> s[i..j][0] == s[i] && s[i..j][j - i - 1] == s[j - 1];
    s[i..j]
  }

  /** Stripping twice is stripping once: the helper strips the line it reads and
      the classifier strips it again. */
  lemma StripIdempotent(s: string)
    ensures Strip(Strip(s)) == Strip(s)
  {
    var r := Strip(s);
    if r != [] {
      assert SkipSpace(r, 0) == 0;
      assert BackSpace(r, 0, |r|) == |r|;
    }
  }

  predicate StartsWith(s: string, prefix: string) {
    |prefix| <= |s| && s[..|prefix|] == prefix
  }

  /** Python's `part in s` for strings. */
  predicate Contains(s: string, part: string)
    decreases |s|
  {
    StartsWith(s, part) || (s != [] && Contains(s[1..], part))
  }

  /** The position of the first occurrence of c in s. */
  function IndexOf(s: string, c: char): (k: Option<nat>)
    ensures k.None? <==> c !in s
    ensures k.Some? ==> k.value < |s| && s[k.value] == c && c !in s[..k.value]
  {
    if s == [] then None
    else if s[0] == c then Some(0)
    else match IndexOf(s[1..], c)
      case None => None
      case Some(j) =>
        assert s[1..][..j] == s[1..j + 1];
        Some(j + 1)
  }

  lemma IndexOfIsFirst(s: string, c: char, k: nat)
    requires k < |s| && s[k] == c && c !in s[..k]
    ensures IndexOf(s, c) == Some(k)
  {
    var r := IndexOf(s, c);
    assert c in s by { assert s[k] == c; }
  }

  /** Python's s.split(sep) for a one-character separator. */
  function Split(s: string, sep: char): (parts: seq<string>)
    ensures parts != []
    ensures forall i :: 0 <= i < |parts| ==> sep !in parts[i]
    decreases |s|
  {
    match IndexOf(s, sep)
    case None => [s]
    case Some(k) => [s[..k]] + Split(s[k + 1..], sep)
  }

  /** Python's sep.join(parts): the inverse of Split. */
  function Join(parts: seq<string>, sep: char): string
    requires parts != []
  {
    if |parts| == 1 then parts[0] else parts[0] + [sep] + Join(parts[1..], sep)
  }

  lemma {:induction false} SplitThenJoin(s: string, sep: char)
    ensures Join(Split(s, sep), sep) == s
    decreases |s|
  {
    match IndexOf(s, sep)
    case None =>
    case Some(k) =>
      SplitThenJoin(s[k + 1..], sep);
      assert s == s[..k] + [sep] + s[k + 1..];
  }

  /** Splitting a part without the separator, the separator and the rest
      yields the part, then the pieces of the rest. */
  lemma SplitAtFirst(part: string, sep: char, rest: string)
    requires sep !in part
    ensures Split(part + [sep] + rest, sep) == [part] + Split(rest, sep)
  {
    var s := part + [sep] + rest;
    assert s[..|part|] == part;
    assert s[|part|] == sep;
    IndexOfIsFirst(s, sep, |part|);
    assert s[|part| + 1..] == rest;
  }

  lemma {:induction false} JoinThenSplit(parts: seq<string>, sep: char)
    requires parts != []
    requires forall i :: 0 <= i < |parts| ==> sep !in parts[i]
    ensures Split(Join(parts, sep), sep) == parts
  {
    if |parts| > 1 {
      assert sep !in parts[0];
      SplitAtFirst(parts[0], sep, Join(parts[1..], sep));
      assert forall i :: 0 <= i < |parts[1..]| ==> parts[1..][i] == parts[i + 1];
      JoinThenSplit(parts[1..], sep);
      assert parts == [parts[0]] + parts[1..];
    } else {
      assert sep !in parts[0];
    }
  }

  /** One '&'-separated field as parse_qs keeps it: split at its first '=';
      a field without '=' or with an empty value is dropped. */
  function Field(f: string): (p: Option<(string, string)>)
    ensures p.Some? ==> p.value.1 != [] && '=' !in p.value.0 && f == p.value.0 + "=" + p.value.1
    ensures p.None? <==> '=' !in f || (f[|f| - 1] == '=' && '=' !in f[..|f| - 1])
  {
    match IndexOf(f, '=')
    case None => None
    case Some(k) =>
      if k + 1 == |f| then None
      else
        assert f == f[..k] + "=" + f[k + 1..];
        Some((f[..k], f[k + 1..]))
  }

  /** The (name, value) pairs parse_qs collects from the fields, in order. */
  function Pairs(fields: seq<string>): (ps: seq<(string, string)>)
    ensures forall i :: 0 <= i < |ps| ==> ps[i].1 != []
    ensures |ps| <= |fields|
  {
    if fields == [] then []
    else
      (match Field(fields[0]) case None => [] case Some(p) => [p]) + Pairs(fields[1..])
  }

  /** The value of the first pair named key, as `qs.get(key, [None])[0]`. */
  function First(ps: seq<(string, string)>, key: string): (v: Option<string>)
    ensures v.None? <==> forall i :: 0 <= i < |ps| ==> ps[i].0 != key
    ensures v.Some? ==> exists i :: 0 <= i < |ps| && ps[i] == (key, v.value)
                                 && forall j :: 0 <= j < i ==> ps[j].0 != key
  {
    if ps == [] then None
    else if ps[0].0 == key then Some(ps[0].1)
    else
      var v := First(ps[1..], key);
      assert v.Some? ==> exists i :: 0 <= i < |ps[1..]| && ps[1..][i] == (key, v.value)
                          && forall j :: 0 <= j < i ==> ps[1..][j].0 != key;
      assert v.Some? ==> exists i :: 0 <= i < |ps| && ps[i] == (key, v.value)
                          && forall j :: 0 <= j < i ==> ps[j].0 != key by {
        if v.Some? {
          var i :| 0 <= i < |ps[1..]| && ps[1..][i] == (key, v.value)
                   && forall j :: 0 <= j < i ==> ps[1..][j].0 != key;
          assert ps[i + 1] == (key, v.value);
          assert forall j :: 0 <= j < i + 1 ==> ps[j].0 != key by {
            forall j | 0 <= j < i + 1 ensures ps[j].0 != key {
              if j > 0 { assert ps[j] == ps[1..][j - 1]; }
            }
          }
        }
      }
      v
  }

  /** `parse_qs(q).get(key, [None])[0]`, without percent-decoding. */
  function QueryValue(q: string, key: string): (v: Option<string>)
    ensures v.Some? ==> v.value != []
  {
    var ps := Pairs(Split(q, '&'));
    var v := First(ps, key);
    assert v.Some? ==> exists i :: 0 <= i < |ps| && ps[i] == (key, v.value);
    v
  }

  /** Every pair parse_qs keeps is one of the fields, split at its first '='. */
  lemma {:induction false} PairsComeFromFields(fields: seq<string>, p: (string, string))
    requires p in Pairs(fields)
    ensures p.0 + "=" + p.1 in fields
    decreases |fields|
  {
    assert fields != [];
    var head := match Field(fields[0]) case None => [] case Some(x) => [x];
    assert Pairs(fields) == head + Pairs(fields[1..]);
    if p in head {
      assert fields[0] == p.0 + "=" + p.1;
    } else {
      PairsComeFromFields(fields[1..], p);
      var j :| 0 <= j < |fields[1..]| && fields[1..][j] == p.0 + "=" + p.1;
      assert fields[j + 1] == p.0 + "=" + p.1;
    }
  }

  /** Every field that holds a '=' followed by a value gives its pair. */
  lemma {:induction false} FieldsGivePairs(fields: seq<string>, f: string)
    requires f in fields && Field(f).Some?
    ensures Field(f).value in Pairs(fields)
    decreases |fields|
  {
    var head := match Field(fields[0]) case None => [] case Some(x) => [x];
    assert Pairs(fields) == head + Pairs(fields[1..]);
    if fields[0] != f {
      assert f in fields[1..];
      FieldsGivePairs(fields[1..], f);
    }
  }

  /** A field that starts with a key free of '=' and an '=' names that key. */
  lemma FieldOfNamed(f: string, key: string)
    requires '=' !in key && StartsWith(f, key + "=") && |f| > |key| + 1
    ensures Field(f) == Some((key, f[|key| + 1..]))
  {
    assert f[..|key|] == (key + "=")[..|key|] == key;
    assert f[|key|] == (key + "=")[|key|] == '=';
    IndexOfIsFirst(f, '=', |key|);
  }

  /** A key free of '=' is found only in a field that is exactly the key, '='
      and the value; and any field of that form with a non-empty value is
      found. So "xcode=1" holds no field named code. */
  lemma QueryValueNamesField(q: string, key: string)
    requires '=' !in key
    ensures QueryValue(q, key).Some? ==> key + "=" + QueryValue(q, key).value in Split(q, '&')
    ensures (exists f :: f in Split(q, '&') && StartsWith(f, key + "=") && |f| > |key| + 1) ==>
      QueryValue(q, key).Some?
  {
    var fields := Split(q, '&');
    var ps := Pairs(fields);
    var v := First(ps, key);
    if v.Some? {
      var i :| 0 <= i < |ps| && ps[i] == (key, v.value);
      PairsComeFromFields(fields, ps[i]);
    }
    if exists f :: f in fields && StartsWith(f, key + "=") && |f| > |key| + 1 {
      var f :| f in fields && StartsWith(f, key + "=") && |f| > |key| + 1;
      FieldOfNamed(f, key);
      FieldsGivePairs(fields, f);
      var i :| 0 <= i < |ps| && ps[i] == Field(f).value;
      assert ps[i].0 == key;
    }
  }

  /** The value of the first field that is the key, '=' and a non-empty value. */
  function FirstNamed(fields: seq<string>, key: string): (v: Option<string>)
    ensures v.Some? ==> v.value != []
    decreases |fields|
  {
    if fields == [] then None
    else if StartsWith(fields[0], key + "=") && |fields[0]| > |key| + 1 then Some(fields[0][|key| + 1..])
    else FirstNamed(fields[1..], key)
  }

  /** The pairs keep the fields' order, so the first pair named key comes from
      the first field named key. */
  lemma {:induction false} PairsFirstNamed(fields: seq<string>, key: string)
    requires '=' !in key
    ensures First(Pairs(fields), key) == FirstNamed(fields, key)
    decreases |fields|
  {
    if fields != [] {
      var f := fields[0];
      var head := match Field(f) case None => [] case Some(x) => [x];
      var rest := Pairs(fields[1..]);
      assert Pairs(fields) == head + rest;
      PairsFirstNamed(fields[1..], key);
      var named := StartsWith(f, key + "=") && |f| > |key| + 1;
      assert Field(f).Some? && Field(f).value.0 == key ==> named by {
        if Field(f).Some? && Field(f).value.0 == key {
          var v := Field(f).value.1;
          assert f == key + "=" + v;
          assert f[..|key| + 1] == key + "=";
        }
      }
      if named {
        FieldOfNamed(f, key);
        assert (head + rest)[0] == (key, f[|key| + 1..]);
      } else if head == [] {
        assert head + rest == rest;
      } else {
        assert (head + rest)[0].0 != key;
        assert (head + rest)[1..] == rest;
      }
    }
  }

  /** parse_qs keeps the fields in order: the value found for a key free of
      '=' is that of the first field that is the key, '=' and a non-empty
      value, so "code=1&code=2" gives "1". */
  lemma QueryValueIsFirstNamed(q: string, key: string)
    requires '=' !in key
    ensures QueryValue(q, key) == FirstNamed(Split(q, '&'), key)
  {
    PairsFirstNamed(Split(q, '&'), key);
  }

  /** The characters urlsplit deletes from anywhere in a URL before it splits it. */
  predicate IsUnsafe(c: char) {
    c == '\t' || c == '\r' || c == '\n'
  }

  /** The text with every tab, carriage return and line feed deleted. */
  function WithoutUnsafe(s: string): (r: string)
    ensures |r| <= |s|
    // nothing to delete is left, and text with nothing to delete is kept
    ensures forall i :: 0 <= i < |r| ==> !IsUnsafe(r[i])
    ensures (forall k :: 0 <= k < |s| ==> !IsUnsafe(s[k])) ==> r == s
  {
    if s == [] then []
    else if IsUnsafe(s[0]) then WithoutUnsafe(s[1..])
    else
      assert s == [s[0]] + s[1..];
      [s[0]] + WithoutUnsafe(s[1..])
  }

  /** Deleting the characters from a concatenation deletes them from each part. */
  lemma {:induction false} WithoutUnsafeAppend(a: string, b: string)
    ensures WithoutUnsafe(a + b) == WithoutUnsafe(a) + WithoutUnsafe(b)
    decreases |a|
  {
    if a == [] {
      assert a + b == b;
    } else {
      assert (a + b)[0] == a[0] && (a + b)[1..] == a[1..] + b;
      WithoutUnsafeAppend(a[1..], b);
      if IsUnsafe(a[0]) {
        assert WithoutUnsafe(a + b) == WithoutUnsafe(a[1..] + b);
      } else {
        assert WithoutUnsafe(a + b) == [a[0]] + WithoutUnsafe(a[1..] + b);
        assert WithoutUnsafe(a) == [a[0]] + WithoutUnsafe(a[1..]);
      }
    }
  }

  /** The network location urlsplit takes after "//": everything up to the
      first '/', '?' or '#'. */
  function Authority(rest: string): (n: string)
    ensures |n| <= |rest| && n == rest[..|n|]
    ensures '/' !in n && '?' !in n && '#' !in n
    ensures |n| < |rest| ==> rest[|n|] == '/' || rest[|n|] == '?' || rest[|n|] == '#'
  {
    if rest == [] || rest[0] == '/' || rest[0] == '?' || rest[0] == '#' then []
    else
      var n := [rest[0]] + Authority(rest[1..]);
      assert forall c :: c in n ==> c == rest[0] || c in Authority(rest[1..]);
      n
  }

  /** urlsplit's check on the network location: a '[' without a ']', or a ']'
      without a '[', is an invalid IPv6 URL. */
  predicate BadBrackets(netloc: string) {
    ('[' in netloc && ']' !in netloc) || (']' in netloc && '[' !in netloc)
  }

  /** The query urlsplit finds in what follows the network location: after the
      first '?' of the part that precedes the first '#'. Neither character can
      occur in the network location, so the search may start anywhere before it. */
  function UrlQuery(url: string): (q: string)
    ensures '#' !in q
    ensures q != [] ==> '?' in url
  {
    var beforeFragment := match IndexOf(url, '#') case None => url case Some(k) => url[..k];
    match IndexOf(beforeFragment, '?')
    case None => ""
    case Some(k) =>
      assert forall c :: c in beforeFragment[k + 1..] ==> c in beforeFragment;
      beforeFragment[k + 1..]
  }

  /** The query is the text between the first '?' and the first '#': with a
      network location and path `a` holding neither, a query `q` without '#'
      and an empty or '#'-led fragment `f`, the query of a + "?" + q + f is q. */
  lemma UrlQueryOf(a: string, q: string, f: string)
    requires '?' !in a && '#' !in a && '#' !in q && (f == [] || f[0] == '#')
    ensures UrlQuery(a + "?" + q + f) == q
  {
    var pre := a + "?" + q;
    var url := pre + f;
    assert '#' !in pre;
    if f != [] {
      assert url[..|pre|] == pre && url[|pre|] == '#';
      IndexOfIsFirst(url, '#', |pre|);
    } else {
      assert url == pre;
    }
    assert pre[..|a|] == a && pre[|a|] == '?';
    IndexOfIsFirst(pre, '?', |a|);
    assert pre[|a| + 1..] == q;
  }

  /** Without a '?' before the fragment, the query is empty. */
  lemma UrlQueryNone(a: string, f: string)
    requires '?' !in a && '#' !in a && (f == [] || f[0] == '#')
    ensures UrlQuery(a + f) == ""
  {
    var url := a + f;
    if f != [] {
      assert url[..|a|] == a && url[|a|] == '#';
      IndexOfIsFirst(url, '#', |a|);
    } else {
      assert url == a;
    }
  }

  predicate IsUrl(s: string) {
    StartsWith(s, "http://") || StartsWith(s, "https://")
  }

  /** The length of the scheme, ':' and "//" that open a URL. */
  function SchemeLength(t: string): (k: nat)
    requires IsUrl(t)
    ensures k <= |t| && (k == 7 || k == 8)
  {
    if StartsWith(t, "http://") then 7 else 8
  }

  datatype CodeAndState = CodeAndState(code: Option<string>, state: Option<string>)

  /** The URL branch of _parse_code_state: urlparse, then parse_qs on the
      query. urlsplit first deletes every tab, carriage return and line feed;
      the scheme and "//" hold none, so only what follows them changes. */
  function ParseUrl(t: string): (r: Result<CodeAndState>)
    requires IsUrl(t)
    // a network location with unbalanced brackets raises ValueError
    ensures var rest := WithoutUnsafe(t[SchemeLength(t)..]);
      r.Err? <==> BadBrackets(Authority(rest))
    ensures r.Err? ==> r.error == InvalidUrl
    // code and state are the first values of their fields in the query
    ensures var q := UrlQuery(WithoutUnsafe(t[SchemeLength(t)..]));
      r.Ok? ==> r.value == CodeAndState(QueryValue(q, "code"), QueryValue(q, "state"))
  {
    var rest := WithoutUnsafe(t[SchemeLength(t)..]);
    if BadBrackets(Authority(rest)) then Err(InvalidUrl)
    else
      var q := UrlQuery(rest);
      Ok(CodeAndState(QueryValue(q, "code"), QueryValue(q, "state")))
  }

  /** The scheme and "//" that open a URL hold no character urlsplit deletes. */
  lemma SchemeIsSafe(t: string)
    requires IsUrl(t)
    ensures forall i :: 0 <= i < SchemeLength(t) ==> !IsUnsafe(t[i])
  {
    var head := if StartsWith(t, "http://") then "http://" else "https://";
    assert t[..SchemeLength(t)] == head;
    forall i | 0 <= i < SchemeLength(t) ensures !IsUnsafe(t[i]) {
      assert t[i] == head[i];
    }
  }

  /** A prefix with nothing to delete stays in front of what the deletion
      leaves of the rest. */
  lemma KeptPrefix(t: string, k: nat)
    requires k <= |t| && WithoutUnsafe(t[..k]) == t[..k]
    ensures var u := WithoutUnsafe(t);
      |u| >= k && u[..k] == t[..k] && u[k..] == WithoutUnsafe(t[k..])
  {
    var head, tail := t[..k], t[k..];
    var u := head + WithoutUnsafe(tail);
    calc {
      WithoutUnsafe(t);
      { assert t == head + tail; }
      WithoutUnsafe(head + tail);
      { WithoutUnsafeAppend(head, tail); }
      u;
    }
    assert u[..k] == head && u[k..] == WithoutUnsafe(tail);
  }

  /** The opening scheme and "//" survive the deletion unchanged. */
  lemma SchemeHeadIsKept(t: string)
    requires IsUrl(t)
    ensures WithoutUnsafe(t[..SchemeLength(t)]) == t[..SchemeLength(t)]
  {
    var head := t[..SchemeLength(t)];
    SchemeIsSafe(t);
    forall i | 0 <= i < |head| ensures !IsUnsafe(head[i]) {
      assert head[i] == t[i];
    }
  }

  /** Deleting the characters keeps the opening scheme and "//", and deletes
      them from what follows. */
  lemma SchemeIsKept(t: string)
    requires IsUrl(t)
    ensures var k := SchemeLength(t); var u := WithoutUnsafe(t);
      |u| >= k && u[..k] == t[..k] && u[k..] == WithoutUnsafe(t[k..])
  {
    var k := SchemeLength(t);
    SchemeHeadIsKept(t);
    KeptPrefix(t, k);
  }

  /** Deleting the characters twice deletes them once. */
  lemma WithoutUnsafeTwice(s: string)
    ensures WithoutUnsafe(WithoutUnsafe(s)) == WithoutUnsafe(s)
  {
  }

  /** Text that opens like a URL is a URL with the same scheme. */
  lemma SameSchemeAs(t: string, u: string)
    requires IsUrl(t)
    requires |u| >= SchemeLength(t) && u[..SchemeLength(t)] == t[..SchemeLength(t)]
    ensures IsUrl(u) && SchemeLength(u) == SchemeLength(t)
  {
    if StartsWith(t, "http://") {
      assert u[..7] == t[..7];
    } else {
      assert u[..8] == t[..8];
      assert u[..7] == u[..8][..7] == t[..8][..7] == t[..7];
    }
  }

  /** A URL parses as it would with its tabs, carriage returns and line feeds
      deleted: such a character inside "code" still leaves a field named code. */
  lemma UnsafeCharsAreIgnored(t: string)
    requires IsUrl(t)
    ensures IsUrl(WithoutUnsafe(t)) && ParseUrl(WithoutUnsafe(t)) == ParseUrl(t)
  {
    var k := SchemeLength(t);
    var u := WithoutUnsafe(t);
    SchemeIsKept(t);
    SameSchemeAs(t, u);
    WithoutUnsafeTwice(t[k..]);
    assert WithoutUnsafe(u[k..]) == WithoutUnsafe(t[k..]);
  }

  /** _parse_code_state: classify the pasted text after stripping it. */
  function ParseCodeState(raw: string): (r: Result<CodeAndState>)
    ensures Strip(raw) == [] ==> r == Ok(CodeAndState(None, None))
    // only a URL can be rejected
    ensures r.Err? ==> IsUrl(Strip(raw)) && r.error == InvalidUrl
    ensures IsUrl(Strip(raw)) ==> r == ParseUrl(Strip(raw))
    ensures Strip(raw) != [] && !IsUrl(Strip(raw)) && Contains(Strip(raw), "code=") ==>
      r == Ok(CodeAndState(QueryValue(Strip(raw), "code"), QueryValue(Strip(raw), "state")))
    ensures Strip(raw) != [] && !IsUrl(Strip(raw)) && !Contains(Strip(raw), "code=") ==>
      r == Ok(CodeAndState(Some(Strip(raw)), None))
  {
    var t := Strip(raw);
    if t == [] then Ok(CodeAndState(None, None))
    else if IsUrl(t) then ParseUrl(t)
    else if Contains(t, "code=") then
      Ok(CodeAndState(QueryValue(t, "code"), QueryValue(t, "state")))
    else Ok(CodeAndState(Some(t), None))
  }

  /** No input yields an empty code or an empty state: every value taken from a
      query is non-empty and the fallback is a non-empty stripped line. So the
      caller's `if not code` test is exactly `code is None`. */
  lemma NeverEmpty(raw: string)
    ensures ParseCodeState(raw).Ok? ==> ParseCodeState(raw).value.code != Some("")
    ensures ParseCodeState(raw).Ok? ==> ParseCodeState(raw).value.state != Some("")
  {
    var t := Strip(raw);
    if t != [] && IsUrl(t) {
      var q := UrlQuery(WithoutUnsafe(t[SchemeLength(t)..]));
      assert QueryValue(q, "code") != Some("");
      assert QueryValue(q, "state") != Some("");
    }
  }

  /** Outside a URL, text holding "code=" yields a code only from a field that
      is exactly "code=" and the code: "xcode=1" gives none, and the text itself
      is never taken as the code. Any field of that form yields one. */
  lemma CodeComesFromCodeField(raw: string)
    requires Strip(raw) != [] && !IsUrl(Strip(raw)) && Contains(Strip(raw), "code=")
    ensures ParseCodeState(raw).Ok?
    ensures var c := ParseCodeState(raw).value.code;
      c.Some? ==> "code=" + c.value in Split(Strip(raw), '&')
    ensures (exists f :: f in Split(Strip(raw), '&') && StartsWith(f, "code=") && |f| > 5) ==>
      ParseCodeState(raw).value.code.Some?
  {
    assert "code" + "=" == "code=";
    QueryValueNamesField(Strip(raw), "code");
  }

  /** The helper strips the line it reads before classifying it; the
      classifier's own strip makes that first strip change nothing. */
  lemma StrippedLineParsesAlike(line: string)
    ensures ParseCodeState(Strip(line)) == ParseCodeState(line)
  {
    StripIdempotent(line);
  }

  /** Text with no whitespace at either end is its own strip. */
  lemma StripKeepsTrimmed(s: string)
    requires s != [] && !IsSpace(s[0]) && !IsSpace(s[|s| - 1])
    ensures Strip(s) == s
  {
    var i, j :| && 0 <= i <= j <= |s| && Strip(s) == s[i..j]
                && (forall k :: 0 <= k < i ==> IsSpace(s[k]))
                && (forall k :: j <= k < |s| ==> IsSpace(s[k]));
    assert i == 0 && j == |s|;
  }

  /** Text without tabs or line breaks is kept whole. */
  lemma NothingUnsafeIsKept(s: string)
    requires forall c :: c in s ==> !IsUnsafe(c)
    ensures WithoutUnsafe(s) == s
  {
    assert forall k :: 0 <= k < |s| ==> s[k] in s;
  }

  /** The network location runs up to the first '/', '?' or '#'. */
  lemma {:induction false} AuthorityOf(a: string, b: string)
    requires '/' !in a && '?' !in a && '#' !in a
    requires b != [] && (b[0] == '/' || b[0] == '?' || b[0] == '#')
    ensures Authority(a + b) == a
    decreases |a|
  {
    if a == [] {
      assert a + b == b;
    } else {
      assert (a + b)[0] == a[0] && (a + b)[1..] == a[1..] + b;
      assert forall c :: c in a[1..] ==> c in a;
      AuthorityOf(a[1..], b);
      assert a == [a[0]] + a[1..];
    }
  }

  /** A field spelt key=value with a non-empty value is the one FirstNamed
      takes when it comes first. */
  lemma FirstNamedHead(fields: seq<string>, key: string, v: string)
    requires fields != [] && fields[0] == key + "=" + v && v != []
    ensures FirstNamed(fields, key) == Some(v)
  {
    assert fields[0][..|key| + 1] == key + "=";
    assert fields[0][|key| + 1..] == v;
  }

  lemma FirstLetterDiffers(s: string, prefix: string)
    requires s != [] && prefix != [] && s[0] != prefix[0]
    ensures !StartsWith(s, prefix)
  {
    if |prefix| <= |s| {
      assert s[..|prefix|][0] == s[0];
    }
  }

  /** The query "code=C&state=S" splits into its two fields. */
  lemma CodeThenStateFields(code: string, state: string)
    requires '&' !in code && '&' !in state
    ensures Split("code=" + code + "&state=" + state, '&') == ["code=" + code, "state=" + state]
  {
    var c, st := "code=" + code, "state=" + state;
    assert '&' !in c && '&' !in st;
    SplitAtFirst(c, '&', st);
    assert Split(st, '&') == [st];
    assert "code=" + code + "&state=" + state == c + "&" + st;
  }

  /** The query "code=<code>&state=<state>" gives back both values. */
  lemma CodeThenState(code: string, state: string)
    requires code != [] && state != [] && '&' !in code && '&' !in state
    ensures var q := "code=" + code + "&state=" + state;
      QueryValue(q, "code") == Some(code) && QueryValue(q, "state") == Some(state)
  {
    var q := "code=" + code + "&state=" + state;
    var fields := ["code=" + code, "state=" + state];
    CodeThenStateFields(code, state);
    QueryValueIsFirstNamed(q, "code");
    QueryValueIsFirstNamed(q, "state");
    FirstNamedHead(fields, "code", code);
    FirstLetterDiffers(fields[0], "state" + "=");
    assert fields[1..] == ["state=" + state];
    FirstNamedHead(fields[1..], "state", state);
  }

  /** An https URL with no whitespace at its end and nothing urlsplit would
      delete is rejected exactly for unbalanced brackets in its network
      location, and otherwise yields the values of its query. */
  lemma ParseHttps(rest: string)
    requires rest != [] && !IsSpace(rest[|rest| - 1])
    requires forall c :: c in rest ==> !IsUnsafe(c)
    ensures var q := UrlQuery(rest);
      ParseCodeState("https://" + rest)
        == if BadBrackets(Authority(rest)) then Err(InvalidUrl)
           else Ok(CodeAndState(QueryValue(q, "code"), QueryValue(q, "state")))
  {
    var url := "https://" + rest;
    assert url[|url| - 1] == rest[|rest| - 1];
    StripKeepsTrimmed(url);
    assert url[..8] == "https://";
    FirstLetterDiffers(url[4..], ":");
    assert !StartsWith(url, "http://") by {
      assert url[..7][4] == url[4];
    }
    assert url[8..] == rest;
    NothingUnsafeIsKept(rest);
  }

  /** The URL's host joined to its path and query, read two ways. */
  lemma Regroup(host: string, path: string, q: string)
    ensures host + ("/" + path + "?" + q) == host + "/" + path + "?" + q
  {
    var l, r := host + ("/" + path + "?" + q), host + "/" + path + "?" + q;
    assert |l| == |r|;
    forall k | 0 <= k < |l| ensures l[k] == r[k] {
    }
  }

  /** After the scheme: a host free of '/', '?', '#' and brackets, a path free
      of '?' and '#', then '?' and a query without '#'. The network location is
      the host and the query is the query. */
  lemma HostPathQuery(host: string, path: string, q: string)
    requires forall c :: c in host ==> !IsUnsafe(c) && c != '/' && c != '?' && c != '#' && c != '[' && c != ']'
    requires forall c :: c in path ==> !IsUnsafe(c) && c != '?' && c != '#'
    requires forall c :: c in q ==> !IsUnsafe(c) && c != '#'
    ensures var rest := host + "/" + path + "?" + q;
      && (forall c :: c in rest ==> !IsUnsafe(c))
      && Authority(rest) == host && !BadBrackets(host)
      && UrlQuery(rest) == q
  {
    var a := host + "/" + path;
    Regroup(host, path, q);
    AuthorityOf(host, "/" + path + "?" + q);
    assert a + "?" + q + [] == a + "?" + q;
    UrlQueryOf(a, q, []);
  }

  /** A redirect URL as the login page sends it, with a host, a path and a
      query holding the code field and then the state field, gives back its
      code and state. */
  lemma RedirectRoundTrip(host: string, path: string, code: string, state: string)
    requires forall c :: c in host ==> !IsUnsafe(c) && c != '/' && c != '?' && c != '#' && c != '[' && c != ']'
    requires forall c :: c in path ==> !IsUnsafe(c) && c != '?' && c != '#'
    requires forall c :: c in code ==> !IsUnsafe(c) && c != '&' && c != '#'
    requires forall c :: c in state ==> !IsUnsafe(c) && c != '&' && c != '#'
    requires code != [] && state != [] && !IsSpace(state[|state| - 1])
    ensures ParseCodeState("https://" + host + "/" + path + "?code=" + code + "&state=" + state)
      == Ok(CodeAndState(Some(code), Some(state)))
  {
    var q := "code=" + code + "&state=" + state;
    var rest := host + "/" + path + "?" + q;
    assert "https://" + host + "/" + path + "?code=" + code + "&state=" + state == "https://" + rest;
    assert rest[|rest| - 1] == state[|state| - 1];
    HostPathQuery(host, path, q);
    ParseHttps(rest);
    CodeThenState(code, state);
  }

  /** What the command-line helper does with the pasted line: stop with exit
      status 2 when no code came out, otherwise exchange the code, taking the
      OAuth client's own state when the input carried none. A rejected URL
      raises out of the helper. */
  datatype Exchange = Abort(status: int) | Exchange(code: string, state: string) | Raises(error: Error)

  function RunStep(line: string, clientState: string): (e: Exchange)
    ensures e.Raises? <==> ParseCodeState(line).Err?
    ensures e.Raises? ==> e.error == InvalidUrl
    ensures e.Abort? <==> ParseCodeState(line).Ok? && ParseCodeState(line).value.code.None?
    ensures e.Abort? ==> e.status == 2
    ensures e.Exchange? ==> Some(e.code) == ParseCodeState(line).value.code && e.code != ""
    ensures e.Exchange? ==>
      var parsed := ParseCodeState(line).value;
      e.state == if parsed.state.Some? then parsed.state.value else clientState
  {
    NeverEmpty(line);
    match ParseCodeState(line)
    case Err(err) => Raises(err)
    case Ok(parsed) =>
      if parsed.code.None? || parsed.code.value == "" then Abort(2)
      else
        var state := if parsed.state.None? || parsed.state.value == "" then clientState else parsed.state.value;
        Exchange(parsed.code.value, state)
  }
}
