/** Placeholder interpolation: the variables are substituted one after another, in whatever
    order the map yields them. On templates without nested placeholders this is the same as
    substituting all of them at once, so the order does not show. */
module Interpolation {
  import opened Wrappers

  type Vars = map<string, string>

  /** Every non-overlapping occurrence, found from the left, is replaced. */
  function ReplaceAll(s: string, old_: string, new_: string): string
    requires old_ != ""
  {
    if s == "" then ""
    else if old_ <= s then new_ + ReplaceAll(s[|old_|..], old_, new_)
    else [s[0]] + ReplaceAll(s[1..], old_, new_)
  }

  function Placeholder(key: string): string {
    "{" + key + "}"
  }

  /** Substituting the variables one by one, in the given order. */
  function InOrder(s: string, vars: Vars, order: seq<string>): string
    requires forall k | k in order :: k in vars
    decreases |order|
  {
    if order == [] then s
    else InOrder(ReplaceAll(s, Placeholder(order[0]), vars[order[0]]), vars, order[1..])
  }

  /** The order lists every variable once. */
  ghost predicate Lists(order: seq<string>, keys: set<string>) {
    && (forall k :: k in order <==> k in keys)
    && (forall i, j | 0 <= i < j < |order| :: order[i] != order[j])
  }

  // ---- substituting all at once ----

  /** The text up to the first closing brace. */
  function Name(t: string): Option<string> {
    if t == "" then None
    else if t[0] == '}' then Some("")
    else match Name(t[1..])
      case None => None
      case Some(n) => Some([t[0]] + n)
  }

  /** The text starts with the placeholder of one of these keys. */
  predicate Starts(t: string, keys: set<string>) {
    t != "" && t[0] == '{' && Name(t[1..]).Some? && Name(t[1..]).value in keys
  }

  lemma {:induction false} NameSplits(t: string)
    ensures match Name(t)
            case None => true
            case Some(n) => n + "}" <= t && '}' !in n
  {
    if t != "" && t[0] != '}' {
      NameSplits(t[1..]);
    }
  }

  lemma {:induction false} NameOfPrefix(t: string, n: string)
    requires n + "}" <= t && '}' !in n
    ensures Name(t) == Some(n)
  {
    if n == "" {
      assert t[0] == (n + "}")[0];
    } else {
      assert t[0] == (n + "}")[0] && t[0] in n;
      assert n[1..] + "}" == (n + "}")[1..];
      assert n[1..] + "}" <= t[1..];
      NameOfPrefix(t[1..], n[1..]);
      assert n == [n[0]] + n[1..];
    }
  }

  function OnePass(t: string, vars: Vars): string {
    if t == "" then ""
    else if Starts(t, vars.Keys) then
      NameSplits(t[1..]);
      var n := Name(t[1..]).value;
      vars[n] + OnePass(t[|n| + 2..], vars)
    else [t[0]] + OnePass(t[1..], vars)
  }

  // ---- when the two agree ----

  predicate BraceFree(s: string) {
    '{' !in s && '}' !in s
  }

  /** The characters keys are made of. */
  ghost predicate KeyChars(chars: set<char>, keys: set<string>) {
    && '{' !in chars && '}' !in chars
    && forall k, c | k in keys && c in k :: c in chars
  }

  /** After some key characters, the text goes on with a placeholder. */
  predicate Reaches(t: string, chars: set<char>, keys: set<string>) {
    Starts(t, keys) || (t != "" && t[0] in chars && Reaches(t[1..], chars, keys))
  }

  /** No opening brace is followed, after key characters only, by a placeholder. */
  predicate Unnested(t: string, chars: set<char>, keys: set<string>) {
    t != "" ==> (t[0] == '{' ==> !Reaches(t[1..], chars, keys)) && Unnested(t[1..], chars, keys)
  }

  /** Values without braces. */
  ghost predicate Plain(vars: Vars) {
    forall k | k in vars :: BraceFree(vars[k])
  }

  /** This holds of every template in which each opening brace starts a placeholder or is
      followed by neither a key character nor a further opening brace. */
  lemma {:induction false} TidyIsUnnested(t: string, chars: set<char>, keys: set<string>)
    requires KeyChars(chars, keys)
    requires forall i | 0 <= i < |t| - 1 && t[i] == '{' :: Starts(t[i..], keys) || (t[i + 1] !in chars && t[i + 1] != '{')
    ensures Unnested(t, chars, keys)
  {
    if t != "" {
      var u := t[1..];
      forall i | 0 <= i < |u| - 1 && u[i] == '{'
        ensures Starts(u[i..], keys) || (u[i + 1] !in chars && u[i + 1] != '{')
      {
        assert t[i + 1] == u[i] && t[i + 1..] == u[i..] && t[i + 2] == u[i + 1];
        assert t[(i + 1) + 1] == u[i + 1];
      }
      TidyIsUnnested(u, chars, keys);
      if t[0] == '{' && u != "" {
        assert t[0..] == t;
        assert Starts(t, keys) || (t[0 + 1] !in chars && t[0 + 1] != '{');
        if Starts(t, keys) {
          NameSplits(u);
          ClosedDoesNotReach(u, Name(u).value, chars, keys);
        }
      }
    }
  }

  lemma {:induction false} ClosedDoesNotReach(t: string, n: string, chars: set<char>, keys: set<string>)
    requires KeyChars(chars, keys) && n + "}" <= t && (forall c | c in n :: c in chars)
    ensures !Reaches(t, chars, keys)
  {
    if n == "" {
      assert t[0] == (n + "}")[0];
    } else {
      assert t[0] == (n + "}")[0] && n[0] in n;
      assert n[1..] + "}" == (n + "}")[1..];
      ClosedDoesNotReach(t[1..], n[1..], chars, keys);
    }
  }

  /** Finding a placeholder in a text is reading its name. */
  lemma StartsOne(t: string, k: string)
    requires BraceFree(k)
    ensures Placeholder(k) <= t <==> Starts(t, {k})
  {
    if Placeholder(k) <= t {
      assert t[0] == Placeholder(k)[0];
      assert k + "}" == Placeholder(k)[1..];
      NameOfPrefix(t[1..], k);
    }
    if Starts(t, {k}) {
      NameSplits(t[1..]);
      assert t == ['{'] + t[1..];
    }
  }

  function Put(t: string, k: string, v: string): string {
    ReplaceAll(t, Placeholder(k), v)
  }

  /** What one substitution does, read by names. */
  lemma PutStep(t: string, k: string, v: string)
    requires BraceFree(k)
    ensures t != "" && !Starts(t, {k}) ==> Put(t, k, v) == [t[0]] + Put(t[1..], k, v)
    ensures Starts(t, {k}) ==> |k| + 2 <= |t| && Put(t, k, v) == v + Put(t[|k| + 2..], k, v)
  {
    StartsOne(t, k);
  }

  /** A closed name after the substitution was one before it. */
  lemma {:induction false} NameBack(t: string, k: string, v: string, n: string, chars: set<char>, keys: set<string>)
    requires KeyChars(chars, keys) && k in keys && BraceFree(k)
    requires !Reaches(t, chars, keys)
    requires n + "}" <= Put(t, k, v) && forall c | c in n :: c in chars
    ensures n + "}" <= t
  {
    PutStep(t, k, v);
    if t != "" {
      assert !Starts(t, {k});
      assert t[0] == (n + "}")[0];
      if n != "" {
        assert n[0] in n;
        assert n[1..] + "}" == (n + "}")[1..];
        assert n[1..] + "}" <= Put(t, k, v)[1..];
        NameBack(t[1..], k, v, n[1..], chars, keys);
      }
    }
  }

  /** No substitution makes up a placeholder. */
  lemma StartsBack(t: string, k: string, v: string, chars: set<char>, keys: set<string>)
    requires KeyChars(chars, keys) && k in keys && BraceFree(k) && t != "" && Unnested(t, chars, keys)
    requires !Starts(t, {k}) && Starts(Put(t, k, v), keys)
    ensures Starts(t, keys) && Name(t[1..]) == Name(Put(t, k, v)[1..])
  {
    PutStep(t, k, v);
    var u := Put(t[1..], k, v);
    assert Put(t, k, v)[1..] == u;
    NameSplits(u);
    var n := Name(u).value;
    NameBack(t[1..], k, v, n, chars, keys);
    NameOfPrefix(t[1..], n);
  }

  lemma {:induction false} ReachesBack(t: string, k: string, v: string, chars: set<char>, keys: set<string>)
    requires KeyChars(chars, keys) && k in keys && BraceFree(k) && Unnested(t, chars, keys)
    requires Reaches(Put(t, k, v), chars, keys)
    ensures Reaches(t, chars, keys)
  {
    PutStep(t, k, v);
    if !Starts(t, {k}) {
      assert t != "";
      if Starts(Put(t, k, v), keys) {
        StartsBack(t, k, v, chars, keys);
      } else {
        assert Put(t, k, v)[1..] == Put(t[1..], k, v);
        ReachesBack(t[1..], k, v, chars, keys);
      }
    }
  }

  lemma {:induction false} UnnestedSuffix(t: string, i: nat, chars: set<char>, keys: set<string>)
    requires i <= |t| && Unnested(t, chars, keys)
    ensures Unnested(t[i..], chars, keys)
  {
    if i > 0 {
      UnnestedSuffix(t[1..], i - 1, chars, keys);
      assert t[1..][i - 1..] == t[i..];
    }
  }

  lemma {:induction false} UnnestedAfterValue(v: string, t: string, chars: set<char>, keys: set<string>)
    requires BraceFree(v) && Unnested(t, chars, keys)
    ensures Unnested(v + t, chars, keys)
  {
    if v == "" {
      assert v + t == t;
    } else {
      UnnestedAfterValue(v[1..], t, chars, keys);
      assert v[0] in v;
      assert (v + t)[1..] == v[1..] + t;
    }
  }

  /** A substitution leaves nothing nested. */
  lemma {:induction false} PutKeepsUnnested(t: string, k: string, v: string, chars: set<char>, keys: set<string>)
    requires KeyChars(chars, keys) && k in keys && BraceFree(k) && BraceFree(v) && Unnested(t, chars, keys)
    ensures Unnested(Put(t, k, v), chars, keys)
    decreases |t|
  {
    PutStep(t, k, v);
    if Starts(t, {k}) {
      UnnestedSuffix(t, |k| + 2, chars, keys);
      PutKeepsUnnested(t[|k| + 2..], k, v, chars, keys);
      UnnestedAfterValue(v, Put(t[|k| + 2..], k, v), chars, keys);
    } else if t != "" {
      PutKeepsUnnested(t[1..], k, v, chars, keys);
      assert Put(t, k, v)[1..] == Put(t[1..], k, v);
      if t[0] == '{' && Reaches(Put(t[1..], k, v), chars, keys) {
        ReachesBack(t[1..], k, v, chars, keys);
      }
    }
  }

  /** Laid over the second text with its start at offset `d`, the first one touches it, and the two
      agree wherever both have a character. */
  ghost predicate OverlapsAt(v: string, h: string, d: int) {
    -|v| < d < |h| && forall j | 0 <= j < |v| && 0 <= d + j < |h| :: v[j] == h[d + j]
  }

  /** Nowhere in the value does the placeholder of one of these keys begin, even if it goes on behind the value. */
  ghost predicate BeginsNone(v: string, keys: set<string>) {
    forall n, d | n in keys && d <= 0 :: !OverlapsAt(v, Placeholder(n), d)
  }

  lemma PlainBeginsNone(v: string, keys: set<string>)
    requires BraceFree(v)
    ensures BeginsNone(v, keys)
  {
    forall n, d | n in keys && -|v| < d <= 0
      ensures !OverlapsAt(v, Placeholder(n), d)
    {
      assert Placeholder(n)[0] == '{' && v[-d] in v;
    }
  }

  lemma BeginsNoneSuffix(v: string, keys: set<string>)
    requires v != "" && BeginsNone(v, keys)
    ensures BeginsNone(v[1..], keys)
  {
    forall n, d | n in keys && d <= 0
      ensures !OverlapsAt(v[1..], Placeholder(n), d)
    {
      assert !OverlapsAt(v, Placeholder(n), d - 1);
      assert forall j | 1 <= j < |v| :: v[j] == v[1..][j - 1];
    }
  }

  lemma StartsWith(t: string, keys: set<string>)
    requires Starts(t, keys)
    ensures Placeholder(Name(t[1..]).value) <= t
  {
    NameSplits(t[1..]);
    assert t == ['{'] + t[1..];
  }

  lemma {:induction false} OnePassAfterValue(v: string, t: string, vars: Vars)
    requires BeginsNone(v, vars.Keys)
    ensures OnePass(v + t, vars) == v + OnePass(t, vars)
  {
    if v == "" {
      assert v + t == t;
    } else {
      if Starts(v + t, vars.Keys) {
        StartsWith(v + t, vars.Keys);
        assert OverlapsAt(v, Placeholder(Name((v + t)[1..]).value), 0);
      }
      BeginsNoneSuffix(v, vars.Keys);
      OnePassAfterValue(v[1..], t, vars);
      assert (v + t)[1..] == v[1..] + t;
    }
  }

  /** A substitution copies the placeholder of another key. */
  lemma {:induction false} PutCopies(t: string, n: string, k: string, v: string)
    requires BraceFree(k) && '{' !in n && n + "}" <= t
    ensures Put(t, k, v) == n + "}" + Put(t[|n| + 1..], k, v)
  {
    PutStep(t, k, v);
    if n == "" {
      assert t[0] == (n + "}")[0];
    } else {
      assert t[0] == (n + "}")[0] && n[0] in n;
      assert n[1..] + "}" == (n + "}")[1..];
      PutCopies(t[1..], n[1..], k, v);
      assert t[1..][|n[1..]| + 1..] == t[|n| + 1..];
      assert n == [n[0]] + n[1..];
    }
  }

  /** Nowhere does the substitution make up the placeholder of another key. */
  ghost predicate MakesNone(t: string, k: string, v: string, others: set<string>) {
    forall i | 0 <= i < |t| && !Starts(t[i..], {k}) && Starts(Put(t[i..], k, v), others) :: Starts(t[i..], others)
  }

  lemma UnnestedMakesNone(t: string, k: string, v: string, chars: set<char>, keys: set<string>)
    requires KeyChars(chars, keys) && k in keys && BraceFree(k) && Unnested(t, chars, keys)
    ensures MakesNone(t, k, v, keys - {k})
  {
    forall i | 0 <= i < |t| && !Starts(t[i..], {k}) && Starts(Put(t[i..], k, v), keys - {k})
      ensures Starts(t[i..], keys - {k})
    {
      UnnestedSuffix(t, i, chars, keys);
      StartsBack(t[i..], k, v, chars, keys);
    }
  }

  lemma MakesNoneSuffix(t: string, m: nat, k: string, v: string, others: set<string>)
    requires m <= |t| && MakesNone(t, k, v, others)
    ensures MakesNone(t[m..], k, v, others)
  {
    forall i | 0 <= i < |t[m..]|
      ensures t[m..][i..] == t[m + i..]
    {
    }
  }

  lemma MakesNoneHere(t: string, k: string, v: string, others: set<string>)
    requires t != "" && MakesNone(t, k, v, others) && !Starts(t, {k}) && !Starts(t, others)
    ensures !Starts(Put(t, k, v), others)
  {
    assert t[0..] == t;
  }

  /** Substituting one variable first and the others at once is substituting all at once. */
  lemma {:induction false} PutThenOnePass(t: string, k: string, vars: Vars, rest: Vars)
    requires BraceFreeKeys(vars) && k in vars && rest == vars - {k} && BeginsNone(vars[k], rest.Keys)
    requires MakesNone(t, k, vars[k], rest.Keys)
    ensures OnePass(Put(t, k, vars[k]), rest) == OnePass(t, vars)
    decreases |t|
  {
    if Starts(t, {k}) {
      ThisPlaceholder(t, k, vars, rest);
      MakesNoneSuffix(t, |k| + 2, k, vars[k], rest.Keys);
      PutThenOnePass(t[|k| + 2..], k, vars, rest);
    } else if t != "" {
      if Starts(t, vars.Keys) {
        OtherPlaceholder(t, k, vars, rest);
        var n := Name(t[1..]).value;
        MakesNoneSuffix(t, |n| + 2, k, vars[k], rest.Keys);
        PutThenOnePass(t[|n| + 2..], k, vars, rest);
      } else {
        MakesNoneSuffix(t, 1, k, vars[k], rest.Keys);
        PutThenOnePass(t[1..], k, vars, rest);
        MakesNoneHere(t, k, vars[k], rest.Keys);
        NoPlaceholder(t, k, vars, rest);
      }
    }
  }

  lemma ThisPlaceholder(t: string, k: string, vars: Vars, rest: Vars)
    requires BraceFree(k) && k in vars && BeginsNone(vars[k], rest.Keys) && Starts(t, {k})
    ensures |k| + 2 <= |t| && OnePass(Put(t, k, vars[k]), rest) == vars[k] + OnePass(Put(t[|k| + 2..], k, vars[k]), rest)
    ensures OnePass(t, vars) == vars[k] + OnePass(t[|k| + 2..], vars)
  {
    PutStep(t, k, vars[k]);
    OnePassAfterValue(vars[k], Put(t[|k| + 2..], k, vars[k]), rest);
  }

  lemma NoPlaceholder(t: string, k: string, vars: Vars, rest: Vars)
    requires BraceFree(k) && k in vars && t != "" && !Starts(t, {k})
    requires !Starts(Put(t, k, vars[k]), rest.Keys)
    ensures OnePass(Put(t, k, vars[k]), rest) == [t[0]] + OnePass(Put(t[1..], k, vars[k]), rest)
  {
    PutStep(t, k, vars[k]);
    assert Put(t, k, vars[k])[1..] == Put(t[1..], k, vars[k]);
  }

  ghost predicate BraceFreeKeys(vars: Vars) {
    forall k | k in vars :: BraceFree(k)
  }

  lemma OtherPlaceholder(t: string, k: string, vars: Vars, rest: Vars)
    requires BraceFreeKeys(vars) && k in vars && rest == vars - {k}
    requires Starts(t, vars.Keys) && !Starts(t, {k})
    ensures var n := Name(t[1..]).value;
            n in rest && |n| + 2 <= |t| &&
            OnePass(Put(t, k, vars[k]), rest) == vars[n] + OnePass(Put(t[|n| + 2..], k, vars[k]), rest)
  {
    var n := Name(t[1..]).value;
    NameSplits(t[1..]);
    PutStep(t, k, vars[k]);
    PutCopies(t[1..], n, k, vars[k]);
    assert t[1..][|n| + 1..] == t[|n| + 2..];
    OnePassPlaceholder(n, Put(t[|n| + 2..], k, vars[k]), rest);
  }

  lemma OnePassPlaceholder(n: string, u: string, vars: Vars)
    requires n in vars && '}' !in n
    ensures OnePass(['{'] + (n + "}" + u), vars) == vars[n] + OnePass(u, vars)
  {
    var p := ['{'] + (n + "}" + u);
    assert p[1..] == n + "}" + u;
    NameOfPrefix(p[1..], n);
    assert p[|n| + 2..] == u;
  }

  // ---- any order ----

  /** Whatever the order, one by one is all at once. */
  lemma {:induction false} AnyOrderIsOnePass(t: string, vars: Vars, order: seq<string>, chars: set<char>)
    requires KeyChars(chars, vars.Keys) && Plain(vars) && Unnested(t, chars, vars.Keys)
    requires Lists(order, vars.Keys)
    ensures InOrder(t, vars, order) == OnePass(t, vars)
    decreases |order|
  {
    if order == [] {
      assert vars.Keys == {};
      NoVariables(t, vars);
    } else {
      var k, rest := order[0], vars - {order[0]};
      assert k !in order[1..];
      PutKeepsUnnested(t, k, vars[k], chars, vars.Keys);
      FewerKeys(Put(t, k, vars[k]), chars, vars.Keys, rest.Keys);
      AnyOrderIsOnePass(Put(t, k, vars[k]), rest, order[1..], chars);
      UnnestedMakesNone(t, k, vars[k], chars, vars.Keys);
      PlainBeginsNone(vars[k], rest.Keys);
      PutThenOnePass(t, k, vars, rest);
      SameValues(Put(t, k, vars[k]), vars, rest, order[1..]);
    }
  }

  lemma {:induction false} NoVariables(t: string, vars: Vars)
    requires vars.Keys == {}
    ensures OnePass(t, vars) == t
  {
    if t != "" {
      NoVariables(t[1..], vars);
    }
  }

  lemma {:induction false} FewerKeys(t: string, chars: set<char>, keys: set<string>, fewer: set<string>)
    requires fewer <= keys && Unnested(t, chars, keys)
    ensures Unnested(t, chars, fewer)
  {
    if t != "" {
      FewerKeys(t[1..], chars, keys, fewer);
      if Reaches(t[1..], chars, fewer) {
        FewerKeysReach(t[1..], chars, keys, fewer);
      }
    }
  }

  lemma {:induction false} FewerKeysReach(t: string, chars: set<char>, keys: set<string>, fewer: set<string>)
    requires fewer <= keys && Reaches(t, chars, fewer)
    ensures Reaches(t, chars, keys)
  {
    if !Starts(t, fewer) {
      FewerKeysReach(t[1..], chars, keys, fewer);
    }
  }

  lemma {:induction false} SameValues(t: string, vars: Vars, rest: Vars, order: seq<string>)
    requires forall k | k in order :: k in rest && k in vars && rest[k] == vars[k]
    ensures InOrder(t, vars, order) == InOrder(t, rest, order)
    decreases |order|
  {
    if order != [] {
      SameValues(Put(t, order[0], vars[order[0]]), vars, rest, order[1..]);
    }
  }

  /** Order independence: the map's iteration order does not show in the result. */
  lemma OrderDoesNotShow(t: string, vars: Vars, a: seq<string>, b: seq<string>, chars: set<char>)
    requires KeyChars(chars, vars.Keys) && Plain(vars) && Unnested(t, chars, vars.Keys)
    requires Lists(a, vars.Keys) && Lists(b, vars.Keys)
    ensures InOrder(t, vars, a) == InOrder(t, vars, b)
  {
    AnyOrderIsOnePass(t, vars, a, chars);
    AnyOrderIsOnePass(t, vars, b, chars);
  }

  // ---- exactly when the order cannot show ----

  /** The first text can be laid over the second so that they touch and agree. */
  ghost predicate Overlaps(v: string, h: string) {
    exists d :: OverlapsAt(v, h, d)
  }

  /** The first text occurs in the second. */
  ghost predicate Within(v: string, k: string) {
    exists i: nat :: OccursAt(v, k, i)
  }

  predicate OccursAt(v: string, k: string, i: nat) {
    i + |v| <= |k| && k[i..i + |v|] == v
  }

  /** A non-empty end of the first text is a beginning of the second. */
  ghost predicate EndBegins(u: string, w: string) {
    exists m: nat :: EndBeginsAt(u, w, m)
  }

  predicate EndBeginsAt(u: string, w: string, m: nat) {
    0 < m <= |u| && m <= |w| && u[|u| - m..] == w[..m]
  }

  /** A value overlaps a placeholder when one lies within the other, or a non-empty end of one is a
      beginning of the other. */
  lemma OverlapsMeans(v: string, b: string)
    ensures var h := Placeholder(b);
            Overlaps(v, h) <==> Within(v, h) || Within(h, v) || EndBegins(v, h) || EndBegins(h, v)
  {
    var h := Placeholder(b);
    if d :| OverlapsAt(v, h, d) {
      OverlapSplits(v, h, d);
    }
    if v == "" {
      assert OverlapsAt(v, h, 1);
    } else if i: nat :| OccursAt(v, h, i) {
      WithinOverlaps(v, h, i);
    } else if i: nat :| OccursAt(h, v, i) {
      AroundOverlaps(v, h, i);
    } else if m: nat :| EndBeginsAt(v, h, m) {
      EndOverlaps(v, h, m);
    } else if m: nat :| EndBeginsAt(h, v, m) {
      BeginningOverlaps(v, h, m);
    }
  }

  lemma OverlapSplits(v: string, h: string, d: int)
    requires OverlapsAt(v, h, d)
    ensures Within(v, h) || Within(h, v) || EndBegins(v, h) || EndBegins(h, v)
  {
    if 0 <= d && d + |v| <= |h| {
      assert OccursAt(v, h, d);
    } else if d <= 0 && |h| <= d + |v| {
      assert OccursAt(h, v, -d);
    } else if d < 0 {
      assert EndBeginsAt(v, h, d + |v|);
    } else {
      assert EndBeginsAt(h, v, |h| - d);
    }
  }

  lemma WithinOverlaps(v: string, h: string, i: nat)
    requires v != "" && OccursAt(v, h, i)
    ensures Overlaps(v, h)
  {
    assert forall j | 0 <= j < |v| :: v[j] == h[i..i + |v|][j] == h[i + j];
    assert OverlapsAt(v, h, i);
  }

  lemma AroundOverlaps(v: string, h: string, i: nat)
    requires h != "" && OccursAt(h, v, i)
    ensures Overlaps(v, h)
  {
    assert forall j | i <= j < i + |h| :: v[j] == v[i..i + |h|][j - i] == h[j - i];
    assert OverlapsAt(v, h, 0 - i);
  }

  lemma EndOverlaps(v: string, h: string, m: nat)
    requires EndBeginsAt(v, h, m)
    ensures Overlaps(v, h)
  {
    assert forall j | |v| - m <= j < |v| :: v[j] == v[|v| - m..][j - (|v| - m)] == h[..m][j - (|v| - m)];
    assert OverlapsAt(v, h, 0 - (|v| - m));
  }

  lemma BeginningOverlaps(v: string, h: string, m: nat)
    requires EndBeginsAt(h, v, m)
    ensures Overlaps(v, h)
  {
    assert forall j | 0 <= j < m :: v[j] == v[..m][j] == h[|h| - m..][j];
    assert OverlapsAt(v, h, |h| - m);
  }

  /** No value overlaps the placeholder of another variable, unless that variable stands for its own placeholder. */
  ghost predicate Apart(vars: Vars) {
    forall a, b | a in vars && b in vars && a != b :: vars[b] == Placeholder(b) || !Overlaps(vars[a], Placeholder(b))
  }

  /** Every order gives the same text, whatever the template. */
  ghost predicate OrderNeverShows(vars: Vars) {
    forall t, a, b | Lists(a, vars.Keys) && Lists(b, vars.Keys) :: InOrder(t, vars, a) == InOrder(t, vars, b)
  }

  /** The variables that do not stand for their own placeholders. */
  ghost function Core(vars: Vars): Vars {
    map k | k in vars && vars[k] != Placeholder(k) :: vars[k]
  }

  lemma {:induction false} PutSame(t: string, k: string)
    ensures Put(t, k, Placeholder(k)) == t
  {
    if t != "" {
      PutSame(t[1..], k);
      if Placeholder(k) <= t {
        PutSame(t[|Placeholder(k)|..], k);
      }
    }
  }

  lemma PlaceholdersDiffer(n: string, c: string, d: int)
    requires BraceFree(n) && BraceFree(c) && n != c
    ensures !OverlapsAt(Placeholder(n), Placeholder(c), d)
  {
    var v, h := Placeholder(n), Placeholder(c);
    if 0 < d < |h| {
      assert v[0] == '{' && h[d] == (c + "}")[d - 1];
      assert d - 1 < |c| ==> c[d - 1] in c;
    } else if -|v| < d < 0 {
      assert h[0] == '{' && v[-d] == (n + "}")[-d - 1];
      assert -d - 1 < |n| ==> n[-d - 1] in n;
    } else if |n| < |c| {
      assert v[|n| + 1] == '}' && h[|n| + 1] == c[|n|] && c[|n|] in c;
    } else if |c| < |n| {
      assert h[|c| + 1] == '}' && v[|c| + 1] == n[|c|] && n[|c|] in n;
    } else {
      var j :| 0 <= j < |n| && n[j] != c[j];
      assert v[j + 1] == n[j] && h[j + 1] == c[j];
    }
  }

  /** A variable that stands for its own placeholder can be left out of the simultaneous substitution. */
  lemma {:induction false} CoreIsEnough(t: string, vars: Vars)
    requires BraceFreeKeys(vars)
    ensures OnePass(t, Core(vars)) == OnePass(t, vars)
    decreases |t|
  {
    if Starts(t, vars.Keys) {
      NameSplits(t[1..]);
      var n := Name(t[1..]).value;
      CoreIsEnough(t[|n| + 2..], vars);
      if n !in Core(vars) {
        forall c, d | c in Core(vars)
          ensures !OverlapsAt(Placeholder(n), Placeholder(c), d)
        {
          PlaceholdersDiffer(n, c, d);
        }
        StartsWith(t, vars.Keys);
        assert t == Placeholder(n) + t[|n| + 2..];
        OnePassAfterValue(Placeholder(n), t[|n| + 2..], Core(vars));
      }
    } else if t != "" {
      CoreIsEnough(t[1..], vars);
    }
  }

  /** The end of a placeholder that can be read after the substitution was there before:
      if it were not, the value would overlap the placeholder. */
  lemma {:induction false} EndBack(t: string, k: string, v: string, h: string, e: nat)
    requires BraceFree(k) && !Overlaps(v, h) && 0 < e <= |h| && h[e..] <= Put(t, k, v)
    ensures h[e..] <= t
    decreases |h| - e
  {
    PutStep(t, k, v);
    var p := Put(t, k, v);
    if e < |h| {
      assert p[0] == h[e..][0];
      if Starts(t, {k}) {
        assert forall j | 0 <= j < |v| && 0 <= e + j < |h| :: v[j] == p[j] == h[e..][j] == h[e + j];
        assert OverlapsAt(v, h, e);
      } else {
        assert p[1..] == Put(t[1..], k, v) && h[e..][1..] == h[e + 1..];
        EndBack(t[1..], k, v, h, e + 1);
      }
    }
  }

  lemma ApartMakesNone(t: string, k: string, v: string, others: set<string>)
    requires BraceFree(k) && forall n | n in others :: BraceFree(n) && !Overlaps(v, Placeholder(n))
    ensures MakesNone(t, k, v, others)
  {
    forall i | 0 <= i < |t| && !Starts(t[i..], {k}) && Starts(Put(t[i..], k, v), others)
      ensures Starts(t[i..], others)
    {
      var u := t[i..];
      PutStep(u, k, v);
      var p := Put(u, k, v);
      assert p[1..] == Put(u[1..], k, v);
      NameSplits(p[1..]);
      var n := Name(p[1..]).value;
      assert Placeholder(n)[1..] == n + "}";
      EndBack(u[1..], k, v, Placeholder(n), 1);
      NameOfPrefix(u[1..], n);
    }
  }

  lemma {:induction false} ApartIsCorePass(t: string, vars: Vars, order: seq<string>)
    requires BraceFreeKeys(vars) && Apart(vars) && Lists(order, vars.Keys)
    ensures InOrder(t, vars, order) == OnePass(t, Core(vars))
    decreases |order|
  {
    if order == [] {
      assert vars.Keys == {};
      NoVariables(t, Core(vars));
    } else {
      var k, rest := order[0], vars - {order[0]};
      OneFewer(vars, order, rest);
      ApartIsCorePass(Put(t, k, vars[k]), rest, order[1..]);
      SameValues(Put(t, k, vars[k]), vars, rest, order[1..]);
      ApartStep(t, k, vars, Core(rest));
    }
  }

  lemma OneFewer(vars: Vars, order: seq<string>, rest: Vars)
    requires BraceFreeKeys(vars) && Apart(vars) && Lists(order, vars.Keys) && order != [] && rest == vars - {order[0]}
    ensures BraceFreeKeys(rest) && Apart(rest) && Lists(order[1..], rest.Keys) && Core(rest) == Core(vars) - {order[0]}
  {
    assert order[0] in vars.Keys && order[0] !in order[1..];
    assert rest.Keys == vars.Keys - {order[0]};
  }

  lemma ApartStep(t: string, k: string, vars: Vars, rest: Vars)
    requires BraceFreeKeys(vars) && Apart(vars) && k in vars && rest == Core(vars) - {k}
    ensures OnePass(Put(t, k, vars[k]), rest) == OnePass(t, Core(vars))
  {
    if vars[k] == Placeholder(k) {
      PutSame(t, k);
      assert rest == Core(vars);
    } else {
      ApartMakesNone(t, k, vars[k], rest.Keys);
      PutThenOnePass(t, k, Core(vars), rest);
    }
  }

  /** When values and placeholders are apart, any order is the simultaneous substitution, on any template. */
  lemma ApartIsOnePass(t: string, vars: Vars, order: seq<string>)
    requires BraceFreeKeys(vars) && Apart(vars) && Lists(order, vars.Keys)
    ensures InOrder(t, vars, order) == OnePass(t, vars)
  {
    ApartIsCorePass(t, vars, order);
    CoreIsEnough(t, vars);
  }

  lemma {:induction false} PutPlain(x: string, u: string, k: string, v: string)
    requires '{' !in x && BraceFree(k)
    ensures Put(x + u, k, v) == x + Put(u, k, v)
  {
    if x == "" {
      assert x + u == u;
    } else {
      PutStep(x + u, k, v);
      assert (x + u)[0] == x[0] && x[0] in x && (x + u)[1..] == x[1..] + u;
      PutPlain(x[1..], u, k, v);
    }
  }

  /** A brace that is followed by another opening brace, and no closing one before, starts nothing. */
  lemma OuterBrace(x: string, u: string, k: string)
    requires BraceFree(x) && BraceFree(k) && u != "" && u[0] == '{'
    ensures !Starts(['{'] + x + u, {k})
  {
    var t, h := ['{'] + x + u, Placeholder(k);
    StartsOne(t, k);
    assert t[|x| + 1] == '{' && h[|k| + 1] == '}';
    assert |x| < |k| ==> h[|x| + 1] == k[|x|] && k[|x|] in k;
    assert |k| < |x| ==> t[|k| + 1] == x[|k|] && x[|k|] in x;
    assert !(h <= t);
  }

  lemma InnerPut(a: string, u: string, k: string, v: string)
    requires BraceFree(a) && BraceFree(k)
    ensures Put(Placeholder(a) + u, k, v) == (if k == a then v else Placeholder(a)) + Put(u, k, v)
  {
    var t := Placeholder(a) + u;
    assert t[1..] == a + "}" + u;
    NameOfPrefix(t[1..], a);
    PutStep(t, k, v);
    if k == a {
      assert t[|a| + 2..] == u;
    } else {
      PutCopies(t[1..], a, k, v);
      assert t[1..][|a| + 1..] == u;
      assert ['{'] + (a + "}" + Put(u, k, v)) == Placeholder(a) + Put(u, k, v);
    }
  }

  /** The part of a placeholder that lies before the offset, and the part behind it. */
  function Before(h: string, d: int): string {
    if 0 < d <= |h| then h[..d] else ""
  }

  function Behind(h: string, d: int): string {
    if 0 <= d < |h| then h[d..] else ""
  }

  /** The template that turns into a text with the placeholder of `b` when `a` is substituted. */
  function Around(b: string, a: string, d: int, n: nat): string {
    Before(Placeholder(b), d) + (Placeholder(a) + Behind(Placeholder(b), d + n))
  }

  /** A placeholder behind an opening brace and before further text. */
  lemma FramedPut(x: string, a: string, y: string, k: string, v: string)
    requires BraceFree(a) && BraceFree(k) && '{' !in y && (x == "" || (x[0] == '{' && BraceFree(x[1..])))
    ensures Put(x + (Placeholder(a) + y), k, v) == x + ((if k == a then v else Placeholder(a)) + y)
  {
    var u := Placeholder(a) + y;
    assert y + "" == y;
    PutPlain(y, "", k, v);
    InnerPut(a, y, k, v);
    if x == "" {
      assert x + u == u;
    } else {
      OuterBrace(x[1..], u, k);
      assert x == ['{'] + x[1..] && (x + u)[1..] == x[1..] + u;
      PutStep(x + u, k, v);
      PutPlain(x[1..], u, k, v);
      assert ['{'] + (x[1..] + Put(u, k, v)) == x + Put(u, k, v);
    }
  }

  /** The template holds no placeholder but that of `a`. */
  lemma AroundPut(b: string, a: string, d: int, n: nat, k: string, v: string)
    requires BraceFree(a) && BraceFree(b) && BraceFree(k) && 0 < d + n && d <= |b| + 1
    ensures Put(Around(b, a, d, n), k, v) ==
            Before(Placeholder(b), d) + ((if k == a then v else Placeholder(a)) + Behind(Placeholder(b), d + n))
  {
    var x, y := Before(Placeholder(b), d), Behind(Placeholder(b), d + n);
    assert Placeholder(b)[1..] == b + "}";
    assert forall j | 0 <= j < |y| :: y[j] == (b + "}")[d + n + j - 1];
    assert 0 < d ==> x[1..] == b[..d - 1];
    FramedPut(x, a, y, k, v);
  }

  /** With the value in the place of `a`, it holds the placeholder of `b`. */
  lemma OverlapCompletes(v: string, h: string, d: int)
    requires OverlapsAt(v, h, d)
    ensures OccursAt(h, Before(h, d) + (v + Behind(h, d + |v|)), if d < 0 then -d else 0)
  {
    var x, y := Before(h, d), Behind(h, d + |v|);
    var i := if d < 0 then -d else 0;
    assert i + |h| <= |x| + |v| + |y|;
    forall j | 0 <= j < |h|
      ensures (x + (v + y))[i + j] == h[j]
    {
      assert 0 <= j - d < |v| ==> v[j - d] == h[d + (j - d)];
    }
    assert (x + (v + y))[i..i + |h|] == h;
  }

  lemma {:induction false} PutLength(t: string, k: string, v: string)
    requires BraceFree(k)
    ensures |v| >= |k| + 2 ==> |Put(t, k, v)| >= |t|
    ensures |v| <= |k| + 2 ==> |Put(t, k, v)| <= |t|
    decreases |t|
  {
    PutStep(t, k, v);
    if Starts(t, {k}) {
      PutLength(t[|k| + 2..], k, v);
    } else if t != "" {
      PutLength(t[1..], k, v);
    }
  }

  /** A text in which the placeholder occurs is changed by its substitution. */
  lemma {:induction false} PutChanges(t: string, k: string, v: string, i: nat)
    requires BraceFree(k) && v != Placeholder(k) && OccursAt(Placeholder(k), t, i)
    ensures Put(t, k, v) != t
  {
    PutStep(t, k, v);
    StartsOne(t, k);
    if Starts(t, {k}) {
      var rest := t[|k| + 2..];
      PutLength(rest, k, v);
      assert t == Placeholder(k) + rest;
      assert Put(t, k, v)[..|v|] == v;
    } else {
      assert i == 0 ==> Placeholder(k) <= t;
      assert t[1..][i - 1..i - 1 + |Placeholder(k)|] == t[i..i + |Placeholder(k)|];
      PutChanges(t[1..], k, v, i - 1);
    }
  }

  lemma SomeOrder(keys: set<string>) returns (order: seq<string>)
    ensures Lists(order, keys)
    decreases keys
  {
    if keys == {} {
      order := [];
    } else {
      var k :| k in keys;
      var rest := SomeOrder(keys - {k});
      order := [k] + rest;
      assert forall x :: x in order <==> x == k || x in rest;
    }
  }

  /** The other variables leave the template as it is. */
  lemma {:induction false} AroundStays(b: string, a: string, d: int, n: nat, vars: Vars, order: seq<string>)
    requires BraceFreeKeys(vars) && (forall k | k in order :: k in vars && k != a)
    requires BraceFree(a) && BraceFree(b) && 0 < d + n && d <= |b| + 1
    ensures InOrder(Around(b, a, d, n), vars, order) == Around(b, a, d, n)
    decreases |order|
  {
    if order != [] {
      AroundPut(b, a, d, n, order[0], vars[order[0]]);
      AroundStays(b, a, d, n, vars, order[1..]);
    }
  }

  lemma TwoLast(a: string, b: string, others: seq<string>, keys: set<string>)
    requires a in keys && b in keys && a != b && Lists(others, keys - {a, b})
    ensures Lists(others + [a] + [b], keys)
  {
  }

  lemma OrderShows(vars: Vars, t: string, o: seq<string>, o': seq<string>)
    requires Lists(o, vars.Keys) && Lists(o', vars.Keys) && InOrder(t, vars, o) != InOrder(t, vars, o')
    ensures !OrderNeverShows(vars)
  {
  }

  /** What the two variables, substituted last, make of the template in either order. */
  lemma BothOrders(vars: Vars, a: string, b: string, d: int, others: seq<string>)
    requires BraceFreeKeys(vars) && a in vars && b in vars && a != b && vars[b] != Placeholder(b)
    requires OverlapsAt(vars[a], Placeholder(b), d) && Lists(others, vars.Keys - {a, b})
    ensures (forall k | k in others + [a] + [b] :: k in vars) && (forall k | k in others + [b] + [a] :: k in vars)
    ensures InOrder(Around(b, a, d, |vars[a]|), vars, others + [a] + [b]) != InOrder(Around(b, a, d, |vars[a]|), vars, others + [b] + [a])
  {
    var n, h := |vars[a]|, Placeholder(b);
    var t, w := Around(b, a, d, n), Before(h, d) + (vars[a] + Behind(h, d + n));
    AroundStays(b, a, d, n, vars, others);
    AroundPut(b, a, d, n, a, vars[a]);
    AroundPut(b, a, d, n, b, vars[b]);
    InOrderSnoc(t, vars, others, a);
    InOrderSnoc(t, vars, others, b);
    InOrderSnoc(t, vars, others + [a], b);
    InOrderSnoc(t, vars, others + [b], a);
    OverlapCompletes(vars[a], h, d);
    PutChanges(w, b, vars[b], if d < 0 then -d else 0);
  }

  /** A value that overlaps another variable's placeholder shows the order. */
  lemma OverlapShowsOrder(vars: Vars, a: string, b: string)
    requires BraceFreeKeys(vars) && a in vars && b in vars && a != b
    requires vars[b] != Placeholder(b) && Overlaps(vars[a], Placeholder(b))
    ensures !OrderNeverShows(vars)
  {
    var d :| OverlapsAt(vars[a], Placeholder(b), d);
    var others := SomeOrder(vars.Keys - {a, b});
    TwoLast(a, b, others, vars.Keys);
    assert vars.Keys - {a, b} == vars.Keys - {b, a};
    TwoLast(b, a, others, vars.Keys);
    BothOrders(vars, a, b, d, others);
    OrderShows(vars, Around(b, a, d, |vars[a]|), others + [a] + [b], others + [b] + [a]);
  }

  /** Order independence, exactly: with keys without braces and any values at all, all orders agree on every
      template if and only if no value overlaps another variable's placeholder, not counting variables
      that stand for their own placeholders. */
  lemma OrderNeverShowsIff(vars: Vars)
    requires BraceFreeKeys(vars)
    ensures OrderNeverShows(vars) <==> Apart(vars)
  {
    if Apart(vars) {
      forall t, a, b | Lists(a, vars.Keys) && Lists(b, vars.Keys)
        ensures InOrder(t, vars, a) == InOrder(t, vars, b)
      {
        ApartIsOnePass(t, vars, a);
        ApartIsOnePass(t, vars, b);
      }
    } else {
      var a, b :| a in vars && b in vars && a != b && vars[b] != Placeholder(b) && Overlaps(vars[a], Placeholder(b));
      OverlapShowsOrder(vars, a, b);
    }
  }

  // ---- values without braces ----

  /** No variable's value occurs in the key of another one. */
  ghost predicate Independent(vars: Vars) {
    forall a, b | a in vars && b in vars && a != b :: !Within(vars[a], b)
  }

  /** A value without braces overlaps a placeholder if and only if it occurs in the key. */
  lemma PlainOverlapsIff(v: string, b: string)
    requires BraceFree(v) && BraceFree(b)
    ensures Overlaps(v, Placeholder(b)) <==> Within(v, b)
  {
    if d :| OverlapsAt(v, Placeholder(b), d) {
      PlainFits(v, b, d);
      assert forall j | 0 <= j < |v| :: v[j] == Placeholder(b)[d + j] == b[d - 1 + j];
      assert OccursAt(v, b, d - 1);
    }
    if i: nat :| OccursAt(v, b, i) {
      assert forall j | 0 <= j < |v| :: v[j] == b[i..i + |v|][j] == b[i + j];
      assert OverlapsAt(v, Placeholder(b), i + 1);
    }
  }

  lemma PlainFits(v: string, b: string, d: int)
    requires BraceFree(v) && BraceFree(b)
    ensures OverlapsAt(v, Placeholder(b), d) ==> 0 < d && d + |v| <= |b| + 1
  {
    var h := Placeholder(b);
    if -|v| < d <= 0 {
      assert h[0] == '{' && v[-d] in v;
    } else if 0 < d <= |b| + 1 < d + |v| {
      assert h[|b| + 1] == '}' && v[|b| + 1 - d] in v;
    }
  }

  lemma PlainApartIff(vars: Vars)
    requires BraceFreeKeys(vars) && Plain(vars)
    ensures Apart(vars) <==> Independent(vars)
    ensures Core(vars) == vars
  {
    forall a, b | a in vars && b in vars
      ensures Overlaps(vars[a], Placeholder(b)) <==> Within(vars[a], b)
      ensures vars[b] != Placeholder(b)
    {
      PlainOverlapsIff(vars[a], b);
      assert Placeholder(b)[0] == '{' && Placeholder(b)[0] in Placeholder(b);
    }
  }

  /** Without braces in values, all orders agree on every template if and only if no variable's value occurs in
      another variable's key. */
  lemma PlainOrderNeverShowsIff(vars: Vars)
    requires BraceFreeKeys(vars) && Plain(vars)
    ensures OrderNeverShows(vars) <==> Independent(vars)
  {
    PlainApartIff(vars);
    OrderNeverShowsIff(vars);
  }

  /** A variable whose value is another one's placeholder shows the order, although it occurs in no key. */
  lemma BracedValueShowsOrder()
    ensures var vars: Vars := map["a" := "{b}", "b" := "x"];
            Independent(vars) && InOrder("{a}", vars, ["a", "b"]) == "x" && InOrder("{a}", vars, ["b", "a"]) == "{b}"
  {
    var vars: Vars := map["a" := "{b}", "b" := "x"];
    assert Placeholder("a") + "" == "{a}" && Placeholder("b") + "" == "{b}" && ["a", "b"][1..] == ["b"] && ["b", "a"][1..] == ["a"];
    InnerPut("a", "", "a", "{b}");
    InnerPut("a", "", "b", "x");
    InnerPut("b", "", "b", "x");
    assert !OccursAt("{b}", "b", 0);
  }

  // ---- the operations ----

  /** The text came out of substituting the variables in some order. */
  ghost predicate Interpolated(s: string, vars: Vars, r: string) {
    exists order | Lists(order, vars.Keys) :: r == InOrder(s, vars, order)
  }

  /** Only one text can come out when nothing is nested. */
  lemma InterpolatedIsOnePass(s: string, vars: Vars, r: string, chars: set<char>)
    requires KeyChars(chars, vars.Keys) && Plain(vars) && Unnested(s, chars, vars.Keys)
    ensures Interpolated(s, vars, r) ==> r == OnePass(s, vars)
  {
    if Interpolated(s, vars, r) {
      var order :| Lists(order, vars.Keys) && r == InOrder(s, vars, order);
      AnyOrderIsOnePass(s, vars, order, chars);
    }
  }

  method Interpolate(s: string, vars: Vars) returns (r: string)
    ensures Interpolated(s, vars, r)
  {
    r := s;
    ghost var order := [];
    var todo := vars.Keys;
    while todo != {}
      invariant todo <= vars.Keys && Lists(order, vars.Keys - todo)
      invariant r == InOrder(s, vars, order)
      decreases todo
    {
      var k :| k in todo;
      r := ReplaceAll(r, Placeholder(k), vars[k]);
      InOrderSnoc(s, vars, order, k);
      order, todo := order + [k], todo - {k};
    }
  }

  lemma {:induction false} InOrderSnoc(s: string, vars: Vars, order: seq<string>, k: string)
    requires (forall j | j in order :: j in vars) && k in vars
    ensures InOrder(s, vars, order + [k]) == ReplaceAll(InOrder(s, vars, order), Placeholder(k), vars[k])
    decreases |order|
  {
    if order == [] {
      assert order + [k] == [k];
    } else {
      InOrderSnoc(ReplaceAll(s, Placeholder(order[0]), vars[order[0]]), vars, order[1..], k);
      assert (order + [k])[1..] == order[1..] + [k];
    }
  }

  method InterpolateSlice(ss: seq<string>, vars: Vars) returns (result: seq<string>)
    ensures |result| == |ss|
    ensures forall i | 0 <= i < |ss| :: Interpolated(ss[i], vars, result[i])
  {
    result := [];
    for i := 0 to |ss|
      invariant |result| == i
      invariant forall j | 0 <= j < i :: Interpolated(ss[j], vars, result[j])
    {
      var r := Interpolate(ss[i], vars);
      result := result + [r];
    }
  }

  method InterpolateMap(m: map<string, string>, vars: Vars) returns (result: map<string, string>)
    ensures result.Keys == m.Keys
    ensures forall k | k in m :: Interpolated(m[k], vars, result[k])
  {
    result := map[];
    var todo := m.Keys;
    while todo != {}
      invariant todo <= m.Keys && result.Keys == m.Keys - todo
      invariant forall k | k in result :: Interpolated(m[k], vars, result[k])
      decreases todo
    {
      var k :| k in todo;
      var r := Interpolate(m[k], vars);
      result, todo := result[k := r], todo - {k};
    }
  }
}
