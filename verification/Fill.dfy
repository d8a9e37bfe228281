/**
 Placeholder substitution (wrap/harness.go): repeated ReplaceAll over a map whose iteration order is
 arbitrary.
*/
module Fill {
  /** strings.ReplaceAll for a non-empty pattern: leftmost, non-overlapping. */
  function ReplaceAll(s: string, pat: string, v: string): string
    requires |pat| > 0
    decreases |s|
  {
    if s == "" then ""
    else if pat <= s then v + ReplaceAll(s[|pat|..], pat, v)
    else [s[0]] + ReplaceAll(s[1..], pat, v)
  }

  function Placeholder(name: string): string { "{{" + name + "}}" }

  /** ReplaceAll over the keys in the given order. */
  function InOrder(s: string, order: seq<string>, vars: map<string, string>): string
    requires forall k | k in order :: k in vars
  {
    if order == [] then s
    else
      var last := order[|order| - 1];
      assert forall k | k in order[..|order| - 1] :: k in order;
      ReplaceAll(InOrder(s, order[..|order| - 1], vars), Placeholder(last), vars[last])
  }

  predicate IsOrderOf(order: seq<string>, vars: map<string, string>) {
    (forall i, j | 0 <= i < j < |order| :: order[i] != order[j]) && (set k | k in order) == vars.Keys
  }

  /** fill: some order of the map's keys, the runtime's choice. */
  method Fill(s: string, vars: map<string, string>) returns (r: string)
    ensures exists order :: IsOrderOf(order, vars) && r == InOrder(s, order, vars)
  {
    r := s;
    ghost var order: seq<string> := [];
    var rest := vars.Keys;
    while rest != {}
      invariant rest <= vars.Keys && (set k | k in order) == vars.Keys - rest
      invariant forall k | k in order :: k in vars
      invariant forall i, j | 0 <= i < j < |order| :: order[i] != order[j]
      invariant r == InOrder(s, order, vars)
      decreases |rest|
    {
      var k :| k in rest;
      r := ReplaceAll(r, Placeholder(k), vars[k]);
      assert k !in order && (order + [k])[..|order|] == order;
      assert (set x | x in order + [k]) == (set x | x in order) + {k};
      order := order + [k];
      rest := rest - {k};
    }
  }

  /*** Templates as tokens ***/

  datatype Token = Text(text: string) | Hole(name: string)

  function Render(toks: seq<Token>): string {
    if toks == [] then ""
    else (if toks[0].Text? then toks[0].text else Placeholder(toks[0].name)) + Render(toks[1..])
  }

  /** No two opening braces in a row, and none at the end, where a value may follow. */
  predicate Calm(s: string) {
    s == "" || ((s[0] == '{' ==> |s| > 1 && s[1] != '{') && Calm(s[1..]))
  }

  lemma {:induction false} NoBraceIsCalm(s: string)
    requires '{' !in s
    ensures Calm(s)
  {
    if s != "" { NoBraceIsCalm(s[1..]); }
  }

  /** Text opens no placeholder of its own, a name holds no brace at all. */
  predicate Plain(t: Token) {
    match t
    case Text(s) => Calm(s)
    case Hole(n) => PlainName(n)
  }

  predicate PlainName(n: string) { '{' !in n && '}' !in n }

  ghost predicate PlainAll(toks: seq<Token>) { forall t | t in toks :: Plain(t) }

  /** What the keys stand for: the value of k is Render(bodies[k]). */
  function Values(bodies: map<string, seq<Token>>): map<string, string> {
    map k | k in bodies :: Render(bodies[k])
  }

  ghost predicate PlainBodies(bodies: map<string, seq<Token>>) {
    forall k | k in bodies :: PlainName(k) && PlainAll(bodies[k])
  }

  /** Simultaneous substitution of the keys in `done`: what a value brings in is not looked at again. */
  function Expand(toks: seq<Token>, bodies: map<string, seq<Token>>, done: set<string>): seq<Token>
    requires done <= bodies.Keys
  {
    if toks == [] then []
    else (if toks[0].Hole? && toks[0].name in done then bodies[toks[0].name] else [toks[0]])
         + Expand(toks[1..], bodies, done)
  }

  function Splice(toks: seq<Token>, k: string, body: seq<Token>): seq<Token> { Expand(toks, map[k := body], {k}) }

  lemma {:induction false} SkipText(l: string, rest: string, k: string, v: string)
    requires Calm(l)
    ensures ReplaceAll(l + rest, Placeholder(k), v) == l + ReplaceAll(rest, Placeholder(k), v)
  {
    if l == "" {
      assert l + rest == rest;
    } else {
      var s := l + rest;
      assert s[0] == l[0] && Placeholder(k)[0] == '{' && Placeholder(k)[1] == '{';
      if l[0] == '{' { assert s[1] == l[1]; }
      assert s[1..] == l[1..] + rest;
      SkipText(l[1..], rest, k, v);
      assert [l[0]] + (l[1..] + ReplaceAll(rest, Placeholder(k), v)) == l + ReplaceAll(rest, Placeholder(k), v);
    }
  }

  lemma PlaceholderAhead(j: string, rest: string, k: string)
    requires PlainName(j) && PlainName(k)
    ensures Placeholder(k) <= Placeholder(j) + rest ==> j == k
  {
    var s, pat := Placeholder(j) + rest, Placeholder(k);
    assert forall i | 0 <= i < |j| :: j[i] in j;
    assert forall i | 0 <= i < |k| :: k[i] in k;
    if pat <= s {
      assert forall i | 0 <= i < |pat| :: pat[i] == s[i];
      assert forall i | 0 <= i < |j| :: s[i + 2] == j[i];
      assert forall i | 0 <= i < |k| :: pat[i + 2] == k[i];
      assert s[|j| + 2] == '}' && pat[|k| + 2] == '}';
    }
  }

  lemma SkipHole(j: string, rest: string, k: string, v: string)
    requires PlainName(j) && PlainName(k) && j != k
    ensures ReplaceAll(Placeholder(j) + rest, Placeholder(k), v) == Placeholder(j) + ReplaceAll(rest, Placeholder(k), v)
  {
    var s, pat, tail := Placeholder(j) + rest, Placeholder(k), j + "}}";
    PlaceholderAhead(j, rest, k);
    assert s == ['{'] + (['{'] + (tail + rest));
    assert s[1..] == ['{'] + (tail + rest);
    assert s[1..][1..] == tail + rest;
    assert s[1..][1] == tail[0] && tail[0] != '{' && pat[1] == '{';
    NoBraceIsCalm(tail);
    SkipText(tail, rest, k, v);
    assert ['{'] + (['{'] + (tail + ReplaceAll(rest, pat, v))) == Placeholder(j) + ReplaceAll(rest, pat, v);
  }

  lemma {:induction false} RenderConcat(a: seq<Token>, b: seq<Token>)
    ensures Render(a + b) == Render(a) + Render(b)
  {
    if a == [] {
      assert a + b == b;
    } else {
      assert (a + b)[1..] == a[1..] + b;
      RenderConcat(a[1..], b);
    }
  }

  lemma RenderOne(t: Token)
    ensures Render([t]) == if t.Text? then t.text else Placeholder(t.name)
  {
    assert [t][1..] == [];
  }

  /** One ReplaceAll over a rendered template is one token substitution, whatever the value renders. */
  lemma {:induction false} ReplaceIsSplice(toks: seq<Token>, k: string, body: seq<Token>)
    requires PlainAll(toks) && PlainName(k)
    ensures ReplaceAll(Render(toks), Placeholder(k), Render(body)) == Render(Splice(toks, k, body))
  {
    if toks != [] {
      var t, rest := toks[0], toks[1..];
      assert Plain(t);
      ReplaceIsSplice(rest, k, body);
      RenderOne(t);
      RenderConcat(if t == Hole(k) then body else [t], Splice(rest, k, body));
      match t
      case Text(l) => SkipText(l, Render(rest), k, Render(body));
      case Hole(j) =>
        if j == k {
          var s := Placeholder(k) + Render(rest);
          assert s[|Placeholder(k)|..] == Render(rest);
        } else {
          SkipHole(j, Render(rest), k, Render(body));
        }
    }
  }

  lemma {:induction false} PlainExpand(toks: seq<Token>, bodies: map<string, seq<Token>>, done: set<string>)
    requires done <= bodies.Keys && PlainAll(toks) && forall k | k in done :: PlainAll(bodies[k])
    ensures PlainAll(Expand(toks, bodies, done))
  {
    if toks != [] {
      assert Plain(toks[0]);
      PlainExpand(toks[1..], bodies, done);
    }
  }

  /*** When the order cannot be seen ***/

  /** Replacing the key by its value changes nothing: the value is the key's own placeholder. */
  predicate Inert(bodies: map<string, seq<Token>>, k: string)
    requires k in bodies
  {
    Render(bodies[k]) == Placeholder(k)
  }

  /** The template asks for k, and the value of k mentions another key with something to say. */
  predicate Mixes(toks: seq<Token>, bodies: map<string, seq<Token>>, k: string, j: string) {
    && k in bodies && j in bodies && k != j && Hole(k) in toks && Hole(j) in bodies[k] && !Inert(bodies, j)
  }

  ghost predicate NeverMixes(toks: seq<Token>, bodies: map<string, seq<Token>>) {
    forall k, j :: !Mixes(toks, bodies, k, j)
  }

  lemma {:induction false} ReplaceBySelf(s: string, pat: string)
    requires |pat| > 0
    ensures ReplaceAll(s, pat, pat) == s
    decreases |s|
  {
    if s != "" {
      if pat <= s {
        ReplaceBySelf(s[|pat|..], pat);
      } else {
        ReplaceBySelf(s[1..], pat);
      }
    }
  }

  lemma {:induction false} ExpandInert(toks: seq<Token>, bodies: map<string, seq<Token>>, done: set<string>, k: string)
    requires done <= bodies.Keys && k in bodies && Inert(bodies, k)
    ensures Render(Expand(toks, bodies, done + {k})) == Render(Expand(toks, bodies, done))
  {
    if toks != [] {
      var t, rest := toks[0], toks[1..];
      ExpandInert(rest, bodies, done, k);
      RenderOne(t);
      var was := if t.Hole? && t.name in done then bodies[t.name] else [t];
      var now := if t.Hole? && t.name in done + {k} then bodies[t.name] else [t];
      RenderConcat(was, Expand(rest, bodies, done));
      RenderConcat(now, Expand(rest, bodies, done + {k}));
    }
  }

  lemma {:induction false} SpliceConcat(a: seq<Token>, b: seq<Token>, k: string, body: seq<Token>)
    ensures Splice(a + b, k, body) == Splice(a, k, body) + Splice(b, k, body)
  {
    if a == [] {
      assert a + b == b;
    } else {
      assert (a + b)[1..] == a[1..] + b;
      SpliceConcat(a[1..], b, k, body);
    }
  }

  lemma {:induction false} SpliceNone(toks: seq<Token>, k: string, body: seq<Token>)
    requires Hole(k) !in toks
    ensures Splice(toks, k, body) == toks
  {
    if toks != [] { SpliceNone(toks[1..], k, body); }
  }

  lemma {:induction false} ExpandOneMore(toks: seq<Token>, bodies: map<string, seq<Token>>, done: set<string>,
      k: string)
    requires done <= bodies.Keys && k in bodies && k !in done
    requires forall j | j in done && Hole(j) in toks :: Hole(k) !in bodies[j]
    ensures Splice(Expand(toks, bodies, done), k, bodies[k]) == Expand(toks, bodies, done + {k})
  {
    if toks != [] {
      var t, rest := toks[0], toks[1..];
      ExpandOneMore(rest, bodies, done, k);
      var was := if t.Hole? && t.name in done then bodies[t.name] else [t];
      SpliceConcat(was, Expand(rest, bodies, done), k, bodies[k]);
      if t.Hole? && t.name in done {
        SpliceNone(was, k, bodies[k]);
      } else {
        assert was[1..] == [];
        assert Splice(was, k, bodies[k]) == if t == Hole(k) then bodies[k] + [] else [t] + [];
      }
    }
  }

  lemma {:induction false} PrefixOrder(toks: seq<Token>, bodies: map<string, seq<Token>>, order: seq<string>)
    requires PlainAll(toks) && PlainBodies(bodies) && NeverMixes(toks, bodies)
    requires (forall k | k in order :: k in bodies) && forall i, j | 0 <= i < j < |order| :: order[i] != order[j]
    ensures InOrder(Render(toks), order, Values(bodies)) == Render(Expand(toks, bodies, set k | k in order))
  {
    if order == [] {
      ExpandNothing(toks, bodies);
      assert (set k | k in order) == {};
    } else {
      var init, last := order[..|order| - 1], order[|order| - 1];
      assert order == init + [last];
      PrefixOrder(toks, bodies, init);
      var done := set k | k in init;
      assert (set k | k in order) == done + {last};
      var before := Expand(toks, bodies, done);
      if Inert(bodies, last) {
        ReplaceBySelf(Render(before), Placeholder(last));
        ExpandInert(toks, bodies, done, last);
      } else {
        PlainExpand(toks, bodies, done);
        ReplaceIsSplice(before, last, bodies[last]);
        forall j | j in done && Hole(j) in toks ensures Hole(last) !in bodies[j] {
          assert !Mixes(toks, bodies, j, last);
        }
        ExpandOneMore(toks, bodies, done, last);
      }
    }
  }

  lemma {:induction false} ExpandNothing(toks: seq<Token>, bodies: map<string, seq<Token>>)
    ensures Expand(toks, bodies, {}) == toks
  {
    if toks != [] { ExpandNothing(toks[1..], bodies); }
  }

  /** Substitution does not depend on the order: any iteration of the map gives simultaneous substitution,
      unless the value of a key the template asks for mentions another key. */
  lemma OrderDoesNotMatter(toks: seq<Token>, bodies: map<string, seq<Token>>, order: seq<string>)
    requires PlainAll(toks) && PlainBodies(bodies) && NeverMixes(toks, bodies) && IsOrderOf(order, Values(bodies))
    ensures InOrder(Render(toks), order, Values(bodies)) == Render(Expand(toks, bodies, bodies.Keys))
  {
    assert (set k | k in order) == bodies.Keys;
    forall k | k in order ensures k in bodies { assert k in (set x | x in order); }
    PrefixOrder(toks, bodies, order);
  }

  /*** When it can ***/

  function Count(toks: seq<Token>, n: string): nat {
    if toks == [] then 0 else (if toks[0] == Hole(n) then 1 else 0) + Count(toks[1..], n)
  }

  lemma {:induction false} CountConcat(a: seq<Token>, b: seq<Token>, n: string)
    ensures Count(a + b, n) == Count(a, n) + Count(b, n)
  {
    if a == [] {
      assert a + b == b;
    } else {
      assert (a + b)[1..] == a[1..] + b;
      CountConcat(a[1..], b, n);
    }
  }

  lemma {:induction false} CountZero(toks: seq<Token>, n: string)
    ensures Count(toks, n) == 0 <==> Hole(n) !in toks
  {
    if toks != [] { CountZero(toks[1..], n); }
  }

  /** How a substitution changes the number of holes and the length. */
  lemma {:induction false} SpliceSizes(toks: seq<Token>, k: string, body: seq<Token>, n: string)
    ensures Count(Splice(toks, k, body), n) == (if n == k then 0 else Count(toks, n)) + Count(toks, k) * Count(body, n)
    ensures |Render(Splice(toks, k, body))|
            == |Render(toks)| + Count(toks, k) * (|Render(body)| - |Placeholder(k)|)
  {
    if toks != [] {
      var t, rest := toks[0], toks[1..];
      SpliceSizes(rest, k, body, n);
      var now := if t == Hole(k) then body else [t];
      CountConcat(now, Splice(rest, k, body), n);
      RenderConcat(now, Splice(rest, k, body));
      RenderOne(t);
      assert [t][1..] == [];
      Distribute(Count(rest, k), Count(body, n));
      Distribute(Count(rest, k), |Render(body)| - |Placeholder(k)|);
    }
  }

  lemma Distribute(c: nat, x: int)
    ensures (1 + c) * x == x + c * x
  {}

  lemma Erase(toks: seq<Token>, n: string)
    requires PlainAll(toks) && PlainName(n)
    ensures |ReplaceAll(Render(toks), Placeholder(n), "")| == |Render(toks)| - Count(toks, n) * |Placeholder(n)|
  {
    ReplaceIsSplice(toks, n, []);
    SpliceSizes(toks, n, [], n);
    Negate(Count(toks, n), |Placeholder(n)|);
  }

  lemma Negate(x: nat, y: nat)
    ensures x * (0 - y) == 0 - x * y
  {}

  /** The number of holes can be read off the string. */
  lemma CountFromString(a: seq<Token>, b: seq<Token>, n: string)
    requires PlainAll(a) && PlainAll(b) && PlainName(n) && Render(a) == Render(b)
    ensures Count(a, n) == Count(b, n)
  {
    Erase(a, n);
    Erase(b, n);
    SameFactor(Count(a, n), Count(b, n), |Placeholder(n)|);
  }

  lemma SameFactor(x: nat, y: nat, w: nat)
    requires w > 0 && x * w == y * w
    ensures x == y
  {}

  /** A value as long as a placeholder it holds is that placeholder. */
  lemma {:induction false} NothingElse(toks: seq<Token>, n: string)
    requires Hole(n) in toks
    ensures |Render(toks)| >= |Placeholder(n)|
    ensures |Render(toks)| == |Placeholder(n)| ==> Render(toks) == Placeholder(n)
  {
    var t, rest := toks[0], toks[1..];
    if t == Hole(n) {
      assert |Render(toks)| == |Placeholder(n)| + |Render(rest)|;
      if Render(rest) == "" { assert Placeholder(n) + "" == Placeholder(n); }
    } else {
      NothingElse(rest, n);
      var front := if t.Text? then t.text else Placeholder(t.name);
      if front == "" { assert front + Render(rest) == Render(rest); }
    }
  }

  /** The arithmetic of two orders that leave equally many holes: a, b count the holes k, j of the template, p, s
      the holes j, k of the value of k, and q, r the holes k, j of the value of j. */
  lemma Balance(a: nat, b: nat, p: nat, s: nat, q: nat, r: nat)
    requires a >= 1 && p >= 1
    requires (b + a * p) * r == b * r + (a + b * q) * p
    requires a * s + (b + a * p) * q == (a + b * q) * s
    ensures q == 0 ==> r == 1
    ensures q >= 1 ==> s >= 2 && r >= 2
  {
    var m, n := a * p, b * q;
    Positive(a, p);
    assert m * r == m + n * p by {
      assert (b + m) * r == b * r + m * r;
      assert (a + n) * p == m + n * p;
    }
    if q == 0 {
      SameFactor(r, 1, m);
    } else {
      assert (b + m) * q == n + m * q && (a + n) * s == a * s + n * s;
      assert n + m * q == n * s;
      Positive(m, q);
      assert n >= 1 && s >= 2;
      Positive(n, p);
      assert r >= 2;
    }
  }

  lemma Positive(x: nat, y: nat)
    requires x >= 1 && y >= 1
    ensures x * y >= 1
  {}

  /** And of two orders of one length: b counts the holes j of the template, c those once k is filled, and e is
      what filling one adds. */
  lemma NoStretch(b: nat, c: nat, e: int)
    requires c > b && c * e == b * e
    ensures e == 0
  {
    var m := c - b;
    assert (b + m) * e == b * e + m * e;
  }

  lemma PlainSplice(toks: seq<Token>, k: string, body: seq<Token>)
    requires PlainAll(toks) && PlainAll(body)
    ensures PlainAll(Splice(toks, k, body))
  {
    PlainExpand(toks, map[k := body], {k});
  }

  lemma SameCounts(toks: seq<Token>, k: string, bk: seq<Token>, j: string, bj: seq<Token>, n: string)
    requires PlainAll(toks) && PlainAll(bk) && PlainAll(bj) && PlainName(n)
    requires Render(Splice(Splice(toks, k, bk), j, bj)) == Render(Splice(Splice(toks, j, bj), k, bk))
    ensures Count(Splice(Splice(toks, k, bk), j, bj), n) == Count(Splice(Splice(toks, j, bj), k, bk), n)
  {
    PlainSplice(toks, k, bk);
    PlainSplice(toks, j, bj);
    PlainSplice(Splice(toks, k, bk), j, bj);
    PlainSplice(Splice(toks, j, bj), k, bk);
    CountFromString(Splice(Splice(toks, k, bk), j, bj), Splice(Splice(toks, j, bj), k, bk), n);
  }

  lemma CountsOfTwo(toks: seq<Token>, x: string, bx: seq<Token>, y: string, body: seq<Token>)
    requires x != y
    ensures var both, mid := Splice(Splice(toks, x, bx), y, body), Count(toks, y) + Count(toks, x) * Count(bx, y);
            && Count(Splice(toks, x, bx), y) == mid
            && Count(both, y) == mid * Count(body, y)
            && Count(both, x) == Count(toks, x) * Count(bx, x) + mid * Count(body, x)
  {
    SpliceSizes(toks, x, bx, x);
    SpliceSizes(toks, x, bx, y);
    SpliceSizes(Splice(toks, x, bx), y, body, x);
    SpliceSizes(Splice(toks, x, bx), y, body, y);
  }

  lemma LengthOfTwo(toks: seq<Token>, x: string, bx: seq<Token>, y: string, body: seq<Token>)
    ensures |Render(Splice(Splice(toks, x, bx), y, body))|
            == |Render(toks)| + Count(toks, x) * (|Render(bx)| - |Placeholder(x)|)
               + Count(Splice(toks, x, bx), y) * (|Render(body)| - |Placeholder(y)|)
  {
    SpliceSizes(toks, x, bx, y);
    SpliceSizes(Splice(toks, x, bx), y, body, y);
  }

  lemma MoreToFill(toks: seq<Token>, k: string, bk: seq<Token>, j: string)
    requires k != j && Count(toks, k) >= 1 && Count(bk, j) >= 1
    ensures Count(Splice(toks, k, bk), j) > Count(toks, j)
  {
    SpliceSizes(toks, k, bk, j);
    Positive(Count(toks, k), Count(bk, j));
  }

  // Dafny's automatic induction over the tokens buys nothing in the next two lemmas and costs a lot.

  lemma {:induction false} SameHoles(toks: seq<Token>, k: string, bk: seq<Token>, j: string, bj: seq<Token>)
    requires PlainAll(toks) && PlainAll(bk) && PlainAll(bj) && PlainName(k) && PlainName(j) && k != j
    requires Count(toks, k) >= 1 && Count(bk, j) >= 1
    requires Render(Splice(Splice(toks, k, bk), j, bj)) == Render(Splice(Splice(toks, j, bj), k, bk))
    ensures Count(bj, k) == 0 ==> Count(bj, j) == 1
    ensures Count(bj, k) >= 1 ==> Count(bk, k) >= 2 && Count(bj, j) >= 2
  {
    SameCounts(toks, k, bk, j, bj, j);
    SameCounts(toks, k, bk, j, bj, k);
    CountsOfTwo(toks, k, bk, j, bj);
    CountsOfTwo(toks, j, bj, k, bk);
    Balance(Count(toks, k), Count(toks, j), Count(bk, j), Count(bk, k), Count(bj, k), Count(bj, j));
  }

  lemma {:induction false} SameLengths(toks: seq<Token>, k: string, bk: seq<Token>, j: string, bj: seq<Token>)
    requires k != j && Count(toks, k) >= 1 && Count(bk, j) >= 1 && Count(bj, k) == 0
    requires Render(Splice(Splice(toks, k, bk), j, bj)) == Render(Splice(Splice(toks, j, bj), k, bk))
    ensures |Render(bj)| == |Placeholder(j)|
  {
    LengthOfTwo(toks, k, bk, j, bj);
    LengthOfTwo(toks, j, bj, k, bk);
    assert Count(Splice(toks, j, bj), k) == Count(toks, k) by {
      SpliceSizes(toks, j, bj, k);
    }
    MoreToFill(toks, k, bk, j);
    NoStretch(Count(toks, j), Count(Splice(toks, k, bk), j), |Render(bj)| - |Placeholder(j)|);
  }

  /** If k before j and j before k render the same, the value of j says nothing, or the two values mention each
      other and each holds its own key twice. */
  lemma SameMeans(toks: seq<Token>, k: string, bk: seq<Token>, j: string, bj: seq<Token>)
    requires PlainAll(toks) && PlainAll(bk) && PlainAll(bj) && PlainName(k) && PlainName(j)
    requires k != j && Hole(k) in toks && Hole(j) in bk
    requires Render(Splice(Splice(toks, k, bk), j, bj)) == Render(Splice(Splice(toks, j, bj), k, bk))
    ensures Render(bj) == Placeholder(j) || (Hole(k) in bj && Count(bk, k) >= 2 && Count(bj, j) >= 2)
  {
    CountZero(toks, k);
    CountZero(bk, j);
    SameHoles(toks, k, bk, j, bj);
    CountZero(bj, k);
    if Count(bj, k) == 0 {
      SameLengths(toks, k, bk, j, bj);
      CountZero(bj, j);
      NothingElse(bj, j);
    }
  }

  /** The tokens after any first keys; a hole none of them fills is still there. */
  lemma {:induction false} After(toks: seq<Token>, bodies: map<string, seq<Token>>, order: seq<string>, keep: string)
    returns (rest: seq<Token>)
    requires PlainAll(toks) && PlainBodies(bodies) && forall k | k in order :: k in bodies
    ensures PlainAll(rest) && InOrder(Render(toks), order, Values(bodies)) == Render(rest)
    ensures Hole(keep) in toks && keep !in order ==> Hole(keep) in rest
  {
    if order == [] { return toks; }
    var init, last := order[..|order| - 1], order[|order| - 1];
    assert order == init + [last];
    var mid := After(toks, bodies, init, keep);
    ReplaceIsSplice(mid, last, bodies[last]);
    PlainSplice(mid, last, bodies[last]);
    KeepsHole(mid, last, bodies[last], keep);
    return Splice(mid, last, bodies[last]);
  }

  lemma {:induction false} KeepsHole(toks: seq<Token>, k: string, body: seq<Token>, keep: string)
    ensures k != keep && Hole(keep) in toks ==> Hole(keep) in Splice(toks, k, body)
  {
    if toks != [] { KeepsHole(toks[1..], k, body, keep); }
  }

  lemma AnyOrder(keys: set<string>) returns (order: seq<string>)
    ensures (forall i, j | 0 <= i < j < |order| :: order[i] != order[j]) && (set k | k in order) == keys
  {
    order := [];
    var rest := keys;
    while rest != {}
      invariant rest <= keys && (set k | k in order) == keys - rest
      invariant forall i, j | 0 <= i < j < |order| :: order[i] != order[j]
      decreases |rest|
    {
      var k :| k in rest;
      assert k !in order && (set x | x in order + [k]) == (set x | x in order) + {k};
      order, rest := order + [k], rest - {k};
    }
  }

  lemma ThenTwo(toks: seq<Token>, bodies: map<string, seq<Token>>, order: seq<string>, mid: seq<Token>, x: string,
      y: string)
    requires PlainAll(mid) && PlainBodies(bodies) && forall k | k in order :: k in bodies
    requires x in bodies && y in bodies && InOrder(Render(toks), order, Values(bodies)) == Render(mid)
    ensures InOrder(Render(toks), order + [x, y], Values(bodies))
            == Render(Splice(Splice(mid, x, bodies[x]), y, bodies[y]))
  {
    assert (order + [x, y])[..|order| + 1] == order + [x] && (order + [x])[..|order|] == order;
    ReplaceIsSplice(mid, x, bodies[x]);
    PlainSplice(mid, x, bodies[x]);
    ReplaceIsSplice(Splice(mid, x, bodies[x]), y, bodies[y]);
  }

  lemma RestThenTwo(bodies: map<string, seq<Token>>, first: seq<string>, x: string, y: string)
    requires (forall i, j | 0 <= i < j < |first| :: first[i] != first[j]) && x != y && x in bodies && y in bodies
    requires (set k | k in first) == bodies.Keys - {x, y}
    ensures IsOrderOf(first + [x, y], Values(bodies)) && forall k | k in first :: k in bodies
  {
    var order := first + [x, y];
    forall k | k in first ensures k in bodies && k != x && k != y {
      assert k in (set z | z in first);
      assert k in bodies.Keys - {x, y};
    }
    assert (set k | k in order) == (set k | k in first) + {x, y};
  }

  /** The two values do not mention each other, or one of them holds its own key at most once. */
  predicate Loose(bodies: map<string, seq<Token>>, k: string, j: string)
    requires k in bodies && j in bodies
  {
    || Hole(k) !in bodies[j] || Hole(j) !in bodies[k]
    || Count(bodies[k], k) <= 1 || Count(bodies[j], j) <= 1
  }

  /** Two orders of all the keys that tell a mixing pair apart: the rest first, then the pair both ways. */
  lemma OrdersTellApart(toks: seq<Token>, bodies: map<string, seq<Token>>, k: string, j: string)
    returns (one: seq<string>, other: seq<string>)
    requires PlainAll(toks) && PlainBodies(bodies) && Mixes(toks, bodies, k, j) && Loose(bodies, k, j)
    ensures IsOrderOf(one, Values(bodies)) && IsOrderOf(other, Values(bodies))
    ensures InOrder(Render(toks), one, Values(bodies)) != InOrder(Render(toks), other, Values(bodies))
  {
    var first := AnyOrder(bodies.Keys - {k, j});
    assert bodies.Keys - {j, k} == bodies.Keys - {k, j};
    RestThenTwo(bodies, first, k, j);
    RestThenTwo(bodies, first, j, k);
    one, other := first + [k, j], first + [j, k];
    forall x | x in first ensures x != k { assert x in (set z | z in first); }
    var mid := After(toks, bodies, first, k);
    ThenTwo(toks, bodies, first, mid, k, j);
    ThenTwo(toks, bodies, first, mid, j, k);
    PairTellsApart(mid, bodies, k, j);
  }

  lemma PairTellsApart(mid: seq<Token>, bodies: map<string, seq<Token>>, k: string, j: string)
    requires PlainAll(mid) && PlainBodies(bodies) && Mixes(mid, bodies, k, j) && Loose(bodies, k, j)
    ensures Render(Splice(Splice(mid, k, bodies[k]), j, bodies[j]))
            != Render(Splice(Splice(mid, j, bodies[j]), k, bodies[k]))
  {
    if Render(Splice(Splice(mid, k, bodies[k]), j, bodies[j]))
        == Render(Splice(Splice(mid, j, bodies[j]), k, bodies[k])) {
      SameMeans(mid, k, bodies[k], j, bodies[j]);
    }
  }

  ghost predicate OrderIsUnseen(toks: seq<Token>, bodies: map<string, seq<Token>>) {
    forall one, other | IsOrderOf(one, Values(bodies)) && IsOrderOf(other, Values(bodies)) ::
      InOrder(Render(toks), one, Values(bodies)) == InOrder(Render(toks), other, Values(bodies))
  }

  /** Exactly when the prompt is independent of the map's order: for any template and any number of keys, when
      no key the template asks for has a value that mentions another key with something to say. Only pairs
      of values that mention each other and each hold their own key twice are set aside. */
  lemma OrderMattersIffMentioned(toks: seq<Token>, bodies: map<string, seq<Token>>)
    requires PlainAll(toks) && PlainBodies(bodies)
    requires forall k, j | Mixes(toks, bodies, k, j) :: Loose(bodies, k, j)
    ensures OrderIsUnseen(toks, bodies) <==> NeverMixes(toks, bodies)
  {
    if NeverMixes(toks, bodies) {
      forall order | IsOrderOf(order, Values(bodies))
        ensures InOrder(Render(toks), order, Values(bodies)) == Render(Expand(toks, bodies, bodies.Keys))
      {
        OrderDoesNotMatter(toks, bodies, order);
      }
    }
    if k, j :| Mixes(toks, bodies, k, j) {
      var one, other := OrdersTellApart(toks, bodies, k, j);
    }
  }

  function Twice(x: string, y: string): seq<Token> { [Hole(x), Hole(y), Hole(x)] }

  lemma SpliceStep(t: Token, rest: seq<Token>, k: string, body: seq<Token>)
    ensures Splice([t] + rest, k, body) == (if t == Hole(k) then body else [t]) + Splice(rest, k, body)
  {
    assert ([t] + rest)[1..] == rest;
  }

  lemma SpliceOfTwice(x: string, y: string)
    requires x != y
    ensures Splice(Twice(x, y), y, Twice(y, x)) == [Hole(x)] + Twice(y, x) + [Hole(x)]
  {
    assert Twice(x, y) == [Hole(x)] + ([Hole(y)] + ([Hole(x)] + []));
    SpliceStep(Hole(x), [Hole(y)] + ([Hole(x)] + []), y, Twice(y, x));
    SpliceStep(Hole(y), [Hole(x)] + [], y, Twice(y, x));
    SpliceStep(Hole(x), [], y, Twice(y, x));
  }

  lemma TwiceCommutes(k: string, j: string)
    requires k != j
    ensures var toks, bk, bj := [Hole(k), Hole(j)], Twice(k, j), Twice(j, k);
            Splice(Splice(toks, k, bk), j, bj) == Splice(Splice(toks, j, bj), k, bk)
  {
    var toks, bk, bj := [Hole(k), Hole(j)], Twice(k, j), Twice(j, k);
    assert toks == [Hole(k)] + ([Hole(j)] + []);
    SpliceStep(Hole(k), [Hole(j)] + [], k, bk);
    SpliceStep(Hole(j), [], k, bk);
    SpliceStep(Hole(k), [Hole(j)] + [], j, bj);
    SpliceStep(Hole(j), [], j, bj);
    assert Splice(toks, k, bk) == bk + [Hole(j)] && Splice(toks, j, bj) == [Hole(k)] + bj;
    SpliceConcat(bk, [Hole(j)], j, bj);
    SpliceOfTwice(k, j);
    SpliceConcat([Hole(k)], bj, k, bk);
    SpliceOfTwice(j, k);
    assert [Hole(k)] + [] == [Hole(k)] && [Hole(j)] + [] == [Hole(j)];
    SpliceStep(Hole(k), [], k, bk);
    assert Splice(Splice(toks, k, bk), j, bj) == ([Hole(k)] + bj + [Hole(k)]) + bj;
    assert Splice(Splice(toks, j, bj), k, bk) == bk + ([Hole(j)] + bk + [Hole(j)]);
    assert ([Hole(k)] + bj + [Hole(k)]) + bj == bk + ([Hole(j)] + bk + [Hole(j)]);
  }

  /** Why Loose: two values that mention each other and hold their own key twice can happen to commute. Here
      they mix, and both orders still give one prompt. */
  lemma MutualMentionMayAgree(k: string, j: string)
    requires k != j && PlainName(k) && PlainName(j)
    ensures var toks, bodies := [Hole(k), Hole(j)], map[k := Twice(k, j), j := Twice(j, k)];
            && Mixes(toks, bodies, k, j) && !Loose(bodies, k, j)
            && Count(bodies[k], k) == Count(bodies[j], j) == 2
            && InOrder(Render(toks), [k, j], Values(bodies)) == InOrder(Render(toks), [j, k], Values(bodies))
  {
    var toks, bodies := [Hole(k), Hole(j)], map[k := Twice(k, j), j := Twice(j, k)];
    var bk, bj := Twice(k, j), Twice(j, k);
    assert bodies[k] == bk && bodies[j] == bj && bk[1] == Hole(j);
    assert [] + [k, j] == [k, j] && [] + [j, k] == [j, k];
    ThenTwo(toks, bodies, [], toks, k, j);
    ThenTwo(toks, bodies, [], toks, j, k);
    TwiceCommutes(k, j);
    TwiceCounts(k, j);
    TwiceCounts(j, k);
    assert bj[1] == Hole(k);
    Loud(bodies, k, j);
  }

  lemma TwiceCounts(x: string, y: string)
    requires x != y
    ensures Count(Twice(x, y), x) == 2
  {
    assert Twice(x, y) == [Hole(x)] + ([Hole(y)] + [Hole(x)]);
    CountConcat([Hole(x)], [Hole(y)] + [Hole(x)], x);
    CountConcat([Hole(y)], [Hole(x)], x);
    CountOne(Hole(x), x);
    CountOne(Hole(y), x);
  }

  lemma CountOne(t: Token, n: string)
    ensures Count([t], n) == if t == Hole(n) then 1 else 0
  {
    assert [t][1..] == [];
  }

  lemma Loud(bodies: map<string, seq<Token>>, k: string, j: string)
    requires j in bodies && bodies[j] == Twice(j, k)
    ensures !Inert(bodies, j)
  {
    assert Twice(j, k) == [Hole(j)] + ([Hole(k)] + [Hole(j)]);
    RenderConcat([Hole(j)], [Hole(k)] + [Hole(j)]);
    RenderConcat([Hole(k)], [Hole(j)]);
    RenderOne(Hole(j));
    RenderOne(Hole(k));
  }

  /*** The failing input ***/

  const PROMPT := [Hole("AUTHOR"), Text(" in "), Hole("TOPIC"), Text(": "), Hole("BODY")]

  const VALUES := map[
    "PERSONA" := [Text("clerk")], "TOPIC" := [Text("desk")], "AUTHOR" := [Text("ada")], "OP_ID" := [Text("1")],
    "BODY" := [Text("who is "), Hole("AUTHOR")], "KIND" := [Text("mention")], "INSTRUCTIONS" := []]

  lemma PlainValues()
    ensures PlainBodies(VALUES)
  {
    forall k | k in VALUES ensures PlainName(k) && PlainAll(VALUES[k]) {
      assert k in {"PERSONA", "TOPIC", "AUTHOR", "OP_ID", "BODY", "KIND", "INSTRUCTIONS"};
      forall t | t in VALUES[k] && t.Text? ensures Calm(t.text) { NoBraceIsCalm(t.text); }
    }
  }

  lemma BodyAsksForAuthor()
    ensures "BODY" in VALUES && "AUTHOR" in VALUES && "BODY" != "AUTHOR"
    ensures VALUES["AUTHOR"] == [Text("ada")] && VALUES["BODY"] == [Text("who is "), Hole("AUTHOR")]
  {
    assert |"BODY"| == 4 && |"AUTHOR"| == 6;
  }

  /** A message that quotes a placeholder: "who is {{AUTHOR}}" in a prompt that has both, over the seven keys
      of a wake. */
  lemma QuotedPlaceholder() returns (one: seq<string>, other: seq<string>)
    ensures IsOrderOf(one, Values(VALUES)) && IsOrderOf(other, Values(VALUES))
    ensures InOrder(Render(PROMPT), one, Values(VALUES)) != InOrder(Render(PROMPT), other, Values(VALUES))
  {
    PlainValues();
    BodyAsksForAuthor();
    Mixing(PROMPT, VALUES);
    one, other := OrdersTellApart(PROMPT, VALUES, "BODY", "AUTHOR");
  }

  lemma Mixing(toks: seq<Token>, bodies: map<string, seq<Token>>)
    requires toks == PROMPT && "BODY" in bodies && "AUTHOR" in bodies && "BODY" != "AUTHOR"
    requires bodies["AUTHOR"] == [Text("ada")] && bodies["BODY"] == [Text("who is "), Hole("AUTHOR")]
    ensures PlainAll(toks) && Mixes(toks, bodies, "BODY", "AUTHOR") && Loose(bodies, "BODY", "AUTHOR")
  {
    assert toks[4] == Hole("BODY") && bodies["BODY"][1] == Hole("AUTHOR");
    RenderOne(Text("ada"));
    assert |Placeholder("AUTHOR")| == 10;
    forall t | t in toks ensures Plain(t) {
      assert t == toks[0] || t == toks[1] || t == toks[2] || t == toks[3] || t == toks[4];
    }
  }
}
