/**
 Key/value parameters: a table of strings, parsed from and printed as "key=value" pairs
 separated by semicolons.
 */
module StrParms {
  import opened Hashmaps
  import opened Lists

  // --------------------------------------------------------------------------- parsing

  /** The first index from i on that holds c, or the length. */
  function Find(s: string, c: char, i: nat): (p: nat)
    requires i <= |s|
    ensures i <= p <= |s| && (p < |s| ==> s[p] == c) && forall j :: i <= j < p ==> s[j] != c
    decreases |s| - i
  {
    if i == |s| || s[i] == c then i else Find(s, c, i + 1)
  }

  /** strtok_r with ";": the maximal runs without a semicolon. */
  function Tokens(s: string): seq<string>
    decreases |s|
  {
    if s == "" then []
    else if s[0] == ';' then Tokens(s[1..])
    else
      var p := Find(s, ';', 0);
      [s[..p]] + Tokens(s[p..])
  }

  /** One pair: a token without '=' has an empty value, one that starts with it is skipped. */
  function Apply(m: map<string, string>, token: string): map<string, string> {
    var eq := Find(token, '=', 0);
    if token == "" || eq == 0 then m
    else m[token[..eq] := if eq < |token| then token[eq + 1..] else ""]
  }

  function ApplyAll(m: map<string, string>, tokens: seq<string>): map<string, string>
    decreases |tokens|
  {
    if tokens == [] then m else ApplyAll(Apply(m, tokens[0]), tokens[1..])
  }

  /** str_parms_create_str. */
  function Parse(s: string): map<string, string> {
    ApplyAll(map[], Tokens(s))
  }

  // -------------------------------------------------------------------------- printing

  function Pair(e: Entry<string, string>): string {
    e.key + "=" + e.value
  }

  /** combine_strings over the entries in the order of the walk. */
  function Print(es: seq<Entry<string, string>>): string
    decreases |es|
  {
    if es == [] then "" else if |es| == 1 then Pair(es[0]) else Print(es[..|es| - 1]) + ";" + Pair(es[|es| - 1])
  }

  predicate Free(s: string, c: char) {
    forall i :: 0 <= i < |s| ==> s[i] != c
  }

  /** What can be printed and read back: keys not empty and free of '=' and ';', values free
      of ';'. */
  predicate CleanPair(key: string, value: string) {
    key != "" && Free(key, '=') && Free(key, ';') && Free(value, ';')
  }

  ghost predicate Clean(m: map<string, string>) {
    forall k :: k in m ==> CleanPair(k, m[k])
  }

  // ------------------------------------------------------------------------- round trip

  lemma FindFirst(s: string, c: char, p: nat)
    requires p <= |s| && (p < |s| ==> s[p] == c) && forall j :: 0 <= j < p ==> s[j] != c
    ensures Find(s, c, 0) == p
  {
    var q := Find(s, c, 0);
  }

  lemma ApplyPair(m: map<string, string>, e: Entry<string, string>)
    requires CleanPair(e.key, e.value)
    ensures Apply(m, Pair(e)) == m[e.key := e.value]
  {
    var t := Pair(e);
    assert t[..|e.key|] == e.key && t[|e.key| + 1..] == e.value && t[|e.key|] == '=';
    FindFirst(t, '=', |e.key|);
  }

  lemma PairFree(e: Entry<string, string>)
    requires CleanPair(e.key, e.value)
    ensures Free(Pair(e), ';') && Pair(e) != ""
  {
  }

  lemma TokensOne(t: string)
    requires t != "" && Free(t, ';')
    ensures Tokens(t) == [t]
  {
    FindFirst(t, ';', |t|);
    assert t[..|t|] == t && t[|t|..] == "";
  }

  /** A token after a semicolon is the last token. */
  lemma {:induction false} TokensSnoc(s: string, t: string)
    requires t != "" && Free(t, ';')
    ensures Tokens(s + ";" + t) == Tokens(s) + [t]
    decreases |s|
  {
    var all := s + ";" + t;
    if s == "" {
      assert all[1..] == t;
      TokensOne(t);
    } else if s[0] == ';' {
      assert all[1..] == s[1..] + ";" + t;
      TokensSnoc(s[1..], t);
    } else {
      var p := Find(s, ';', 0);
      FindFirst(all, ';', p);
      assert all[..p] == s[..p] && all[p..] == s[p..] + ";" + t;
      if p < |s| {
        TokensSnoc(s[p..], t);
      } else {
        assert s[p..] == "";
        assert all[p..] == ";" + t && (";" + t)[1..] == t;
        TokensOne(t);
        assert Tokens(all[p..]) == [t];
      }
      assert [s[..p]] + (Tokens(s[p..]) + [t]) == [s[..p]] + Tokens(s[p..]) + [t];
    }
  }

  function Pairs(es: seq<Entry<string, string>>): seq<string> {
    if es == [] then [] else Pairs(es[..|es| - 1]) + [Pair(es[|es| - 1])]
  }

  ghost predicate AllClean(es: seq<Entry<string, string>>) {
    forall i :: 0 <= i < |es| ==> CleanPair(es[i].key, es[i].value)
  }

  lemma {:induction false} TokensPrint(es: seq<Entry<string, string>>)
    requires AllClean(es)
    ensures Tokens(Print(es)) == Pairs(es)
    decreases |es|
  {
    hide CleanPair, Pair;
    if es != [] {
      var n := |es| - 1;
      PairFree(es[n]);
      if n == 0 {
        TokensOne(Pair(es[0]));
        assert Pairs(es[..0]) == [];
      } else {
        TokensPrint(es[..n]);
        TokensSnoc(Print(es[..n]), Pair(es[n]));
      }
    }
  }

  lemma {:induction false} ApplySnoc(m: map<string, string>, ts: seq<string>, t: string)
    ensures ApplyAll(m, ts + [t]) == Apply(ApplyAll(m, ts), t)
    decreases |ts|
  {
    if ts == [] {
      assert ([t])[1..] == [];
    } else {
      assert (ts + [t])[1..] == ts[1..] + [t];
      ApplySnoc(Apply(m, ts[0]), ts[1..], t);
    }
  }

  /** The pairs of the first n entries. */
  ghost function Upto(es: seq<Entry<string, string>>): map<string, string> {
    if es == [] then map[] else Upto(es[..|es| - 1])[es[|es| - 1].key := es[|es| - 1].value]
  }

  lemma {:induction false} ApplyPairs(es: seq<Entry<string, string>>)
    requires AllClean(es)
    ensures ApplyAll(map[], Pairs(es)) == Upto(es)
  {
    hide CleanPair, Pair, Apply;
    if es != [] {
      var n := |es| - 1;
      ApplyPairs(es[..n]);
      ApplySnoc(map[], Pairs(es[..n]), Pair(es[n]));
      ApplyPair(Upto(es[..n]), es[n]);
    }
  }

  /** The map of entries with distinct keys. */
  lemma {:induction false} UptoAt(es: seq<Entry<string, string>>, k: string)
    requires forall i, j :: 0 <= i < j < |es| ==> es[i].key != es[j].key
    ensures k in Upto(es) <==> exists i :: 0 <= i < |es| && es[i].key == k
    ensures forall i :: 0 <= i < |es| && es[i].key == k ==> Upto(es)[k] == es[i].value
  {
    if es != [] {
      var n := |es| - 1;
      UptoAt(es[..n], k);
      if k in Upto(es[..n]) {
        var i :| 0 <= i < n && es[..n][i].key == k;
        assert es[i].key == k;
      }
      forall i | 0 <= i < |es| && es[i].key == k ensures k in Upto(es) && Upto(es)[k] == es[i].value {
        if i < n { assert es[..n][i].key == k; }
      }
    }
  }

  lemma UptoHolds(hash: string -> nat, m: map<string, string>, es: seq<Entry<string, string>>)
    requires Holds(hash, m, es)
    ensures Upto(es) == m
  {
    forall i, j | 0 <= i < j < |es| ensures es[i].key != es[j].key {
      assert es[i] in es && es[j] in es;
    }
    forall k ensures k in Upto(es) <==> k in m {
      UptoAt(es, k);
      if k in Upto(es) {
        var i :| 0 <= i < |es| && es[i].key == k;
        assert es[i] in es;
      }
      if k in m {
        var e := Entry(k, hash(k), m[k]);
        assert Stands(hash, m, e) && e in es;
        var i :| 0 <= i < |es| && es[i] == e;
        assert es[i].key == k;
      }
    }
    forall k | k in m ensures Upto(es)[k] == m[k] {
      UptoAt(es, k);
      var e := Entry(k, hash(k), m[k]);
      assert Stands(hash, m, e) && e in es;
      var i :| 0 <= i < |es| && es[i] == e;
      assert es[i].key == k;
    }
  }

  /** Every pair that parsing produces is clean. */
  lemma {:induction false} TokensClean(s: string, i: nat)
    requires i < |Tokens(s)|
    ensures Tokens(s)[i] != "" && Free(Tokens(s)[i], ';')
    decreases |s|
  {
    if s[0] == ';' {
      TokensClean(s[1..], i);
    } else {
      var p := Find(s, ';', 0);
      if i > 0 { TokensClean(s[p..], i - 1); }
    }
  }

  lemma ApplyClean(m: map<string, string>, t: string)
    requires Clean(m) && Free(t, ';')
    ensures Clean(Apply(m, t))
  {
  }

  lemma {:induction false} ApplyAllClean(m: map<string, string>, ts: seq<string>)
    requires Clean(m) && forall i :: 0 <= i < |ts| ==> Free(ts[i], ';')
    ensures Clean(ApplyAll(m, ts))
    decreases |ts|
  {
    hide Clean, Free;
    if ts != [] {
      ApplyClean(m, ts[0]);
      ApplyAllClean(Apply(m, ts[0]), ts[1..]);
    }
  }

  lemma ParseClean(s: string)
    ensures Clean(Parse(s))
  {
    forall i | 0 <= i < |Tokens(s)| ensures Free(Tokens(s)[i], ';') {
      TokensClean(s, i);
    }
    ApplyAllClean(map[], Tokens(s));
  }

  /** Printing a table, in whatever order its entries come, and parsing the text gives the
      same map exactly when its pairs are clean. */
  lemma RoundTrip(hash: string -> nat, m: map<string, string>, es: seq<Entry<string, string>>)
    requires Holds(hash, m, es)
    ensures Parse(Print(es)) == m <==> Clean(m)
  {
    if Clean(m) {
      forall i | 0 <= i < |es| ensures CleanPair(es[i].key, es[i].value) {
        assert es[i] in es;
      }
      TokensPrint(es);
      ApplyPairs(es);
      UptoHolds(hash, m, es);
    } else {
      ParseClean(Print(es));
    }
  }

  // ------------------------------------------------------------------------- in place

  /** The 32-bit djb hash of a string, as the bucket index sees it before mixing. */
  function DjbHash(s: string): nat {
    if s == "" then 5381 else (DjbHash(s[..|s| - 1]) * 33 + s[|s| - 1] as nat) % 0x1_0000_0000
  }

  /** The hash without a limit to its size. */
  function Unwrapped(s: string): nat {
    if s == "" then 5381 else 33 * Unwrapped(s[..|s| - 1]) + s[|s| - 1] as nat
  }

  /** Wrapping around at every character is wrapping around once, at the end. */
  lemma {:induction false} HashWraps(s: string)
    ensures DjbHash(s) == Unwrapped(s) % 0x1_0000_0000
  {
    if s != "" {
      HashWraps(s[..|s| - 1]);
      StepWraps(Unwrapped(s[..|s| - 1]), s[|s| - 1] as nat);
    }
  }

  lemma StepWraps(a: nat, c: nat)
    ensures (a % 0x1_0000_0000 * 33 + c) % 0x1_0000_0000 == (33 * a + c) % 0x1_0000_0000
  {
    var k := a / 0x1_0000_0000;
    assert 33 * a + c == (a % 0x1_0000_0000 * 33 + c) + 33 * k * 0x1_0000_0000;
  }

  class Parms {
    const table: Hashmap<string, string>

    ghost predicate Valid()
      reads this, table
    {
      table.Valid()
    }

    /** mix is the hash map's secondary hashing. */
    constructor (mix: nat -> nat)
      ensures Valid() && table.model == map[] && fresh(table)
    {
      table := new Hashmap(5, (s: string) => mix(DjbHash(s)));
    }

    method AddPair(kvpair: string)
      requires Valid()
      modifies table
      ensures Valid() && table.model == Apply(old(table.model), kvpair)
    {
      if kvpair == "" { return; }
      var eq := FindChar(kvpair, '=', 0);
      if eq == 0 { return; }
      var key, value := kvpair[..eq], "";
      if eq < |kvpair| { value := kvpair[eq + 1..]; }
      var _ := table.PutValue(key, value);
    }

    /** The tokenising loop of str_parms_create_str. */
    method AddAll(s: string)
      requires Valid()
      modifies table
      ensures Valid() && table.model == ApplyAll(old(table.model), Tokens(s))
    {
      hide Tokens, ApplyAll, Apply, Represents, PowerOfTwo, Loaded;
      var i := 0;
      assert s[0..] == s;
      while i < |s|
        invariant i <= |s| && Valid()
        invariant ApplyAll(table.model, Tokens(s[i..])) == ApplyAll(old(table.model), Tokens(s))
      {
        NextToken(s, i);
        if s[i] == ';' {
          i := i + 1;
        } else {
          var p := FindChar(s, ';', i);
          ApplyFirst(table.model, s[i..p], Tokens(s[p..]));
          AddPair(s[i..p]);
          i := p;
        }
      }
      assert s[i..] == "";
      NoTokens(table.model);
    }

    /** str_parms_to_str. */
    method ToStr() returns (r: string)
      requires Valid()
      ensures r == Print(Flatten(table.buckets)) && (Parse(r) == table.model <==> Clean(table.model))
    {
      hide Print, Parse, Clean, Flatten, Represents, PowerOfTwo, Loaded, Holds;
      TableHolds(table.hash, table.model, Table(table.buckets, table.size));
      RoundTrip(table.hash, table.model, Flatten(table.buckets));
      r := "";
      var i := 0;
      ghost var all := Flatten(table.buckets);
      ghost var done: seq<Entry<string, string>> := [];
      PrintNone();
      assert table.buckets[0..] == table.buckets;
      while i < |table.buckets|
        invariant i <= |table.buckets| && done + Flatten(table.buckets[i..]) == all
        invariant r == Print(done)
      {
        FlattenStep(table.buckets, i);
        ghost var rest := Flatten(table.buckets[i + 1..]);
        r := Combine(r, table.buckets[i], done);
        assert done + (table.buckets[i] + rest) == done + table.buckets[i] + rest;
        done := done + table.buckets[i];
        i := i + 1;
      }
      FlattenEnd(table.buckets);
      assert done + [] == done;
    }
  }

  /** combine_strings for each entry of a chain.  Nothing has been printed yet exactly while
      the text is empty, since every pair has at least its '='. */
  method Combine(text: string, chain: seq<Entry<string, string>>, ghost done: seq<Entry<string, string>>)
    returns (r: string)
    requires text == Print(done)
    ensures r == Print(done + chain)
  {
    hide Print;
    r := text;
    var k := 0;
    assert done + chain[..0] == done;
    while k < |chain|
      invariant k <= |chain| && r == Print(done + chain[..k])
    {
      var e := chain[k];
      PrintSnoc(done + chain[..k], e);
      assert done + chain[..k] + [e] == done + chain[..k + 1];
      r := (if r != "" then r + ";" else "") + (e.key + "=" + e.value);
      k := k + 1;
    }
    assert chain[..k] == chain;
  }

  lemma PrintNone()
    ensures Print([]) == ""
  {
  }

  lemma PrintSnoc(es: seq<Entry<string, string>>, e: Entry<string, string>)
    ensures Print(es) == "" <==> es == []
    ensures Print(es + [e]) == (if es == [] then "" else Print(es) + ";") + Pair(e)
  {
    assert (es + [e])[..|es|] == es;
  }

  lemma FlattenStep<T>(ss: seq<seq<T>>, i: nat)
    requires i < |ss|
    ensures Flatten(ss[i..]) == ss[i] + Flatten(ss[i + 1..])
  {
    assert ss[i..][1..] == ss[i + 1..];
  }

  lemma FlattenEnd<T>(ss: seq<seq<T>>)
    ensures Flatten(ss[|ss|..]) == []
  {
  }

  lemma NextToken(s: string, i: nat)
    requires i < |s|
    ensures if s[i] == ';' then Tokens(s[i..]) == Tokens(s[i + 1..]) else
      var p := Find(s, ';', i);
      p > i && Tokens(s[i..]) == [s[i..p]] + Tokens(s[p..])
  {
    if s[i] == ';' {
      assert s[i..][1..] == s[i + 1..];
    } else {
      var p := Find(s, ';', i);
      FindFirst(s[i..], ';', p - i);
      assert s[i..][..p - i] == s[i..p] && s[i..][p - i..] == s[p..];
    }
  }

  lemma ApplyFirst(m: map<string, string>, t: string, ts: seq<string>)
    ensures ApplyAll(m, [t] + ts) == ApplyAll(Apply(m, t), ts)
  {
    assert ([t] + ts)[1..] == ts;
  }

  lemma NoTokens(m: map<string, string>)
    ensures ApplyAll(m, Tokens("")) == m
  {
  }

  method FindChar(s: string, c: char, start: nat) returns (p: nat)
    requires start <= |s|
    ensures p == Find(s, c, start)
  {
    p := start;
    while p < |s| && s[p] != c
      invariant start <= p <= |s| && Find(s, c, p) == Find(s, c, start)
    {
      p := p + 1;
    }
  }
}
