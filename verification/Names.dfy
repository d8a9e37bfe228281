/**
 Strings cut at a separator, and the topic-path grammar built on it (declaration/declaration.go). The name
 grammar itself belongs to soulstream-core; here it is any predicate whose names are non-empty and hold
 none of the characters that mean something to a path, a subject, a tag or an artifact reference.
*/
module Names {
  import opened Wrappers

  /** strings.Split for a one-character separator. */
  function Split(s: string, sep: char): (r: seq<string>)
    ensures |r| >= 1
    ensures forall tok | tok in r :: sep !in tok
  {
    if s == "" then [""]
    else
      var rest := Split(s[1..], sep);
      if s[0] == sep then [""] + rest
      else [[s[0]] + rest[0]] + rest[1..]
  }

  function Join(toks: seq<string>, sep: char): string
    requires |toks| >= 1
  {
    if |toks| == 1 then toks[0] else toks[0] + [sep] + Join(toks[1..], sep)
  }

  lemma {:induction false} JoinUndoesSplit(s: string, sep: char)
    ensures Join(Split(s, sep), sep) == s
  {
    if s != "" {
      var rest := Split(s[1..], sep);
      JoinUndoesSplit(s[1..], sep);
      var r := Split(s, sep);
      assert r[1..] == if s[0] == sep then rest else rest[1..];
      assert s == [s[0]] + s[1..];
    }
  }

  lemma {:induction false} JoinOfConcat(a: seq<string>, b: seq<string>, sep: char)
    requires |a| >= 1 && |b| >= 1
    ensures Join(a + b, sep) == Join(a, sep) + [sep] + Join(b, sep)
  {
    if |a| > 1 {
      assert (a + b)[1..] == a[1..] + b;
      JoinOfConcat(a[1..], b, sep);
    } else {
      assert (a + b)[1..] == b;
    }
  }

  lemma SplitIsInjective(s: string, t: string, sep: char)
    requires Split(s, sep) == Split(t, sep)
    ensures s == t
  {
    JoinUndoesSplit(s, sep);
    JoinUndoesSplit(t, sep);
  }

  lemma {:induction false} SplitOfPlain(s: string, sep: char)
    requires sep !in s
    ensures Split(s, sep) == [s]
  {
    if s != "" {
      SplitOfPlain(s[1..], sep);
      assert s == [s[0]] + s[1..];
    }
  }

  lemma {:induction false} SplitOfConcat(a: string, b: string, sep: char)
    ensures Split(a + [sep] + b, sep) == Split(a, sep) + Split(b, sep)
  {
    var s := a + [sep] + b;
    if a == "" {
      assert s[1..] == b;
    } else {
      assert s[1..] == a[1..] + [sep] + b;
      SplitOfConcat(a[1..], b, sep);
    }
  }

  /** strings.Cut at a one-character separator. */
  function Cut(s: string, sep: char): (r: Option<(string, string)>)
    ensures r.None? <==> sep !in s
    ensures r.Some? ==> sep !in r.value.0 && s == r.value.0 + [sep] + r.value.1
  {
    if s == "" then None
    else if s[0] == sep then Some(("", s[1..]))
    else
      var r := Cut(s[1..], sep);
      if r.None? then None else Some(([s[0]] + r.value.0, r.value.1))
  }

  lemma CutAtFirst(a: string, b: string, sep: char)
    requires sep !in a
    ensures Cut(a + [sep] + b, sep) == Some((a, b))
  {
    var s := a + [sep] + b;
    assert s[|a|] == sep;
    var r := Cut(s, sep).value;
    CutsAgree(a, b, r.0, r.1, sep);
  }

  lemma {:induction false} CutsAgree(a: string, b: string, a': string, b': string, sep: char)
    requires sep !in a && sep !in a' && a + [sep] + b == a' + [sep] + b'
    ensures a == a' && b == b'
  {
    var s := a + [sep] + b;
    assert s[0] == (a' + [sep] + b')[0];
    if a != "" && a' != "" {
      assert s[1..] == a[1..] + [sep] + b == a'[1..] + [sep] + b';
      CutsAgree(a[1..], b, a'[1..], b', sep);
    } else {
      assert b == s[1..] == b';
    }
  }

  /*** The name and path grammars ***/

  ghost predicate NameGrammar(valid: string -> bool) {
    forall s | valid(s) :: s != "" && forall c | c in s :: c !in ".*>/: "
  }

  predicate IsTopicPath(valid: string -> bool, path: string) {
    path != "" && forall seg | seg in Split(path, '.') :: valid(seg)
  }

  method ValidateTopicPath(valid: string -> bool, path: string) returns (ok: bool)
    ensures ok <==> IsTopicPath(valid, path)
    ensures ok <==> path != "" && forall seg | seg in Split(path, '.') :: valid(seg)
  {
    if path == "" { return false; }
    var segs := Split(path, '.');
    for i := 0 to |segs|
      invariant forall k | 0 <= k < i :: valid(segs[k])
    {
      if !valid(segs[i]) {
        assert segs[i] in segs;
        return false;
      }
    }
    return true;
  }

  lemma {:induction false} JoinHolds(toks: seq<string>, sep: char, c: char)
    requires |toks| >= 1 && c != sep && forall t | t in toks :: c !in t
    ensures c !in Join(toks, sep)
  {
    if |toks| > 1 { JoinHolds(toks[1..], sep, c); }
  }

  /** A path holds nothing but its names and the dots between them. */
  lemma PathHolds(valid: string -> bool, path: string, c: char)
    requires NameGrammar(valid) && IsTopicPath(valid, path) && c in "*>/: "
    ensures c !in path
  {
    JoinUndoesSplit(path, '.');
    JoinHolds(Split(path, '.'), '.', c);
  }
}
