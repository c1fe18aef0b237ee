/** ARC4 as the kernel runs it: the next swap is fetched before the current byte goes out. */
module Arc4 {
  import opened Arith
  import opened Lists

  const N: nat := 256

  /** S holds numbers below 256 and nothing twice, so it is a permutation of 0..255. */
  ghost predicate Permutation(S: seq<nat>) {
    |S| == N && NoDup(S) && forall i :: 0 <= i < N ==> S[i] < N
  }

  function Swap(S: seq<nat>, i: nat, j: nat): (r: seq<nat>)
    requires i < |S| && j < |S|
    ensures |r| == |S|
  {
    S[i := S[j]][j := S[i]]
  }

  lemma SwapPermutation(S: seq<nat>, i: nat, j: nat)
    requires Permutation(S) && i < N && j < N
    ensures Permutation(Swap(S, i, j))
  {
    var r := Swap(S, i, j);
    forall p, q | 0 <= p < q < N ensures r[p] != r[q] {
      assert r[p] == S[if p == j then i else if p == i then j else p];
      assert r[q] == S[if q == j then i else if q == i then j else q];
    }
  }

  // --------------------------------------------------------------------------- textbook

  datatype State = State(S: seq<nat>, i: nat, j: nat)

  ghost predicate StateOk(s: State) {
    Permutation(s.S) && s.i < N && s.j < N
  }

  /** One step of RC4: advance i, move j by S[i], swap, and give S[S[i] + S[j]]. */
  function Step(s: State): (State, nat)
    requires StateOk(s)
  {
    var i := (s.i + 1) % N;
    var j := (s.j + s.S[i]) % N;
    var S := Swap(s.S, i, j);
    (State(S, i, j), S[(S[i] + S[j]) % N])
  }

  lemma StepOk(s: State)
    requires StateOk(s)
    ensures StateOk(Step(s).0) && Step(s).1 < N
  {
    var i := (s.i + 1) % N;
    SwapPermutation(s.S, i, (s.j + s.S[i]) % N);
  }

  function Xor(b: bv8, k: nat): bv8
    requires k < N
  {
    b ^ (k as bv8)
  }

  /** The state after a text and the text with the keystream mixed in. */
  function Crypt(s: State, text: seq<bv8>): (r: (State, seq<bv8>))
    requires StateOk(s)
    ensures StateOk(r.0) && |r.1| == |text|
    decreases |text|
  {
    if text == [] then (s, [])
    else
      StepOk(s);
      var (s', k) := Step(s);
      var (e, rest) := Crypt(s', text[1..]);
      (e, [Xor(text[0], k)] + rest)
  }

  lemma CryptFirst(s: State, text: seq<bv8>)
    requires StateOk(s) && text != []
    ensures StateOk(Step(s).0) && Step(s).1 < N
    ensures var (s', k) := Step(s);
      Crypt(s, text) == (Crypt(s', text[1..]).0, [Xor(text[0], k)] + Crypt(s', text[1..]).1)
  {
    StepOk(s);
  }

  /** A text in two calls gives what it gives in one. */
  lemma {:induction false} CryptSplit(s: State, a: seq<bv8>, b: seq<bv8>)
    requires StateOk(s)
    ensures var (s', x) := Crypt(s, a);
      var (e, y) := Crypt(s', b);
      Crypt(s, a + b) == (e, x + y)
    decreases |a|
  {
    hide Step, Xor;
    if a == [] {
      assert a + b == b;
      assert [] + Crypt(s, b).1 == Crypt(s, b).1;
    } else {
      CryptFirst(s, a);
      CryptFirst(s, a + b);
      var (s', k) := Step(s);
      assert (a + b)[1..] == a[1..] + b;
      CryptSplit(s', a[1..], b);
      var x := Crypt(s', a[1..]).1;
      var y := Crypt(Crypt(s, a).0, b).1;
      assert [Xor(a[0], k)] + (x + y) == [Xor(a[0], k)] + x + y;
    }
  }

  lemma XorTwice(b: bv8, k: nat)
    requires k < N
    ensures Xor(Xor(b, k), k) == b
  {
    XorBits(b, k as bv8);
  }

  lemma XorBits(b: bv8, k: bv8)
    ensures (b ^ k) ^ k == b
  {
  }

  /** Encrypting twice from the same state gives the text back. */
  lemma {:induction false} CryptUndoes(s: State, text: seq<bv8>)
    requires StateOk(s)
    ensures Crypt(s, Crypt(s, text).1) == (Crypt(s, text).0, text)
    decreases |text|
  {
    hide Step, Xor;
    if text != [] {
      CryptFirst(s, text);
      var (s', k) := Step(s);
      var rest := Crypt(s', text[1..]).1;
      XorTwice(text[0], k);
      CryptUndoes(s', text[1..]);
      var out := Crypt(s, text).1;
      assert out[1..] == rest;
      CryptFirst(s, out);
      assert [text[0]] + text[1..] == text;
    }
  }

  /** One call for each piece, the state carried along. */
  function CryptPieces(s: State, pieces: seq<seq<bv8>>): (r: (State, seq<bv8>))
    requires StateOk(s)
    ensures StateOk(r.0)
    decreases |pieces|
  {
    if pieces == [] then (s, [])
    else
      var (s', out) := Crypt(s, pieces[0]);
      var (end, rest) := CryptPieces(s', pieces[1..]);
      (end, out + rest)
  }

  /** However a text is cut into pieces, the calls together are one call on the whole. */
  lemma {:induction false} CryptPiecesOnce(s: State, pieces: seq<seq<bv8>>)
    requires StateOk(s)
    ensures CryptPieces(s, pieces) == Crypt(s, Flatten(pieces))
    decreases |pieces|
  {
    hide Step, Xor;
    if pieces != [] {
      CryptPiecesOnce(Crypt(s, pieces[0]).0, pieces[1..]);
      CryptSplit(s, pieces[0], Flatten(pieces[1..]));
    }
  }

  // -------------------------------------------------------------------------- key schedule

  function Identity(n: nat): (S: seq<nat>)
    ensures |S| == n && forall i :: 0 <= i < n ==> S[i] == i
  {
    seq(n, i => i)
  }

  /** The schedule from step i on, with the key repeated as often as needed. */
  function Schedule(key: seq<bv8>, S: seq<nat>, i: nat, j: nat): (r: seq<nat>)
    requires key != [] && Permutation(S) && i <= N && j < N
    ensures Permutation(r)
    decreases N - i
  {
    if i == N then S
    else
      var j' := (j + key[i % |key|] as nat + S[i]) % N;
      SwapPermutation(S, i, j');
      Schedule(key, Swap(S, i, j'), i + 1, j')
  }

  function KeyState(key: seq<bv8>): (s: State)
    requires key != []
    ensures StateOk(s)
  {
    State(Schedule(key, Identity(N), 0, 0), 0, 0)
  }

  /** Decrypting with the key what was encrypted with it, each in any number of pieces. */
  lemma DecryptsAnySplit(key: seq<bv8>, pieces: seq<seq<bv8>>, others: seq<seq<bv8>>)
    requires key != [] && Flatten(others) == CryptPieces(KeyState(key), pieces).1
    ensures CryptPieces(KeyState(key), others) == (CryptPieces(KeyState(key), pieces).0, Flatten(pieces))
  {
    hide Crypt, CryptPieces, Flatten, KeyState;
    var s := KeyState(key);
    CryptPiecesOnce(s, pieces);
    CryptPiecesOnce(s, others);
    CryptUndoes(s, Flatten(pieces));
  }

  // ------------------------------------------------------------ RC4 written out in full

  /** T is S with the entries at a and b exchanged. */
  ghost predicate Exchanged(S: seq<nat>, T: seq<nat>, a: nat, b: nat) {
    && |S| == |T| == 256 && a < 256 && b < 256 && T[a] == S[b] && T[b] == S[a]
    && forall k :: 0 <= k < 256 && k != a && k != b ==> T[k] == S[k]
  }

  /** Step i of the key schedule: j moves by S[i] and the key byte, and i and j are exchanged. */
  ghost predicate KeyTurn(key: seq<bv8>, i: nat, S: seq<nat>, j: nat, T: seq<nat>, j': nat)
    requires key != []
  {
    i < |S| && j' == (j + S[i] + key[i % |key|] as nat) % 256 && Exchanged(S, T, i, j')
  }

  lemma {:induction false} KeyTurns(key: seq<bv8>, S: seq<nat>, i: nat, j: nat)
    returns (Ss: seq<seq<nat>>, js: seq<nat>)
    requires key != [] && Permutation(S) && i <= N && j < N
    ensures |Ss| == |js| == N - i + 1 && Ss[0] == S && js[0] == j && Ss[N - i] == Schedule(key, S, i, j)
    ensures forall k, m :: 0 <= k && m == k + 1 && m < |Ss| ==> KeyTurn(key, i + k, Ss[k], js[k], Ss[m], js[m])
    decreases N - i
  {
    hide Permutation;
    if i == N {
      Ss, js := [S], [j];
    } else {
      EntryOk(S, i);
      var j' := (j + key[i % |key|] as nat + S[i]) % N;
      SwapPermutation(S, i, j');
      var T := Swap(S, i, j');
      var Ts, ks := KeyTurns(key, T, i + 1, j');
      Ss, js := [S] + Ts, [j] + ks;
      assert KeyTurn(key, i, S, j, T, j');
      forall k, m | 0 <= k && m == k + 1 && m < |Ss| ensures KeyTurn(key, i + k, Ss[k], js[k], Ss[m], js[m]) {
        if k > 0 { assert Ss[k] == Ts[k - 1] && Ss[m] == Ts[k] && js[k] == ks[k - 1] && js[m] == ks[k]; }
      }
    }
  }

  lemma EntryOk(S: seq<nat>, i: nat)
    requires Permutation(S) && i < N
    ensures |S| == N && S[i] < N
  {
  }

  /** The state for a key is what 256 turns make of the identity, the key repeated as needed. */
  lemma KeyScheduleIs(key: seq<bv8>) returns (Ss: seq<seq<nat>>, js: seq<nat>)
    requires key != []
    ensures |Ss| == |js| == 257 && |Ss[0]| == 256 && js[0] == 0 && forall k :: 0 <= k < 256 ==> Ss[0][k] == k
    ensures forall k, m :: 0 <= k && m == k + 1 && m < 257 ==> KeyTurn(key, k, Ss[k], js[k], Ss[m], js[m])
    ensures KeyState(key) == State(Ss[256], 0, 0)
  {
    hide Schedule, KeyTurn, Permutation;
    IdentityOk();
    Ss, js := KeyTurns(key, Identity(N), 0, 0);
  }

  /** One turn of the generator. */
  ghost predicate StreamTurn(s: State, t: State) {
    && |s.S| == 256 && t.i == (s.i + 1) % 256 && t.j == (s.j + s.S[t.i]) % 256
    && Exchanged(s.S, t.S, t.i, t.j)
  }

  /** c is b mixed with the byte that the sum of the two entries just exchanged points to. */
  ghost predicate PicksByte(t: State, b: bv8, c: bv8)
    requires StateOk(t)
  {
    c == b ^ (t.S[(t.S[t.i] + t.S[t.j]) % 256] as bv8)
  }

  /** Turn k leads from state k to the next, and mixes byte k of the text into the output. */
  ghost predicate StreamAt(states: seq<State>, text: seq<bv8>, out: seq<bv8>, k: nat)
    requires k < |text| == |out| && |states| == |text| + 1
  {
    StateOk(states[k + 1]) && StreamTurn(states[k], states[k + 1]) && PicksByte(states[k + 1], text[k], out[k])
  }

  /** Byte k of the output is byte k of the text mixed with the one that turn k picks. */
  lemma {:induction false} StreamIs(s: State, text: seq<bv8>) returns (states: seq<State>)
    requires StateOk(s)
    ensures |states| == |text| + 1 && states[0] == s && states[|text|] == Crypt(s, text).0
    ensures forall k :: 0 <= k < |text| ==> StreamAt(states, text, Crypt(s, text).1, k)
    decreases |text|
  {
    hide StateOk, StreamTurn, PicksByte, Step, Xor;
    if text == [] {
      states := [s];
    } else {
      CryptFirst(s, text);
      StepOk(s);
      StepIs(s);
      var (s', key) := Step(s);
      var rest := StreamIs(s', text[1..]);
      states := [s] + rest;
      var out, more := Crypt(s, text).1, Crypt(s', text[1..]).1;
      assert out == [Xor(text[0], key)] + more;
      forall k | 0 <= k < |text| ensures StreamAt(states, text, out, k) {
        assert states[k + 1] == rest[k];
        if k > 0 {
          assert StreamAt(rest, text[1..], more, k - 1);
          assert states[k] == rest[k - 1] && text[1..][k - 1] == text[k] && more[k - 1] == out[k];
        }
      }
    }
  }

  lemma StepIs(s: State)
    requires StateOk(s)
    ensures StateOk(Step(s).0) && StreamTurn(s, Step(s).0) && Step(s).1 < N
    ensures forall b: bv8 :: PicksByte(Step(s).0, b, Xor(b, Step(s).1))
  {
    StepOk(s);
  }

  // --------------------------------------------------------------------------- in place

  class Context {
    const S: array<nat>
    /** The index of the next swap, one ahead of the textbook's i. */
    var x: nat
    var y: nat

    ghost predicate Valid()
      reads this, S
    {
      Permutation(S[..]) && x < N && y < N
    }

    ghost function View(): State
      reads this, S
      requires Valid()
      ensures StateOk(View())
    {
      State(S[..], (x + N - 1) % N, y)
    }

    constructor ()
      ensures S.Length == N && fresh(S)
    {
      S := new nat[N](i => 0);
      x, y := 1, 0;
    }

    method SetKey(key: seq<bv8>)
      requires key != [] && S.Length == N
      modifies this, S
      ensures Valid() && View() == KeyState(key)
    {
      hide Permutation, Schedule, Swap;
      x, y := 1, 0;
      for i := 0 to N
        modifies S
        invariant forall p :: 0 <= p < i ==> S[p] == p
      {
        S[i] := i;
      }
      assert S[..] == Identity(N);
      IdentityOk();
      var j: nat, k: nat, i: nat := 0, 0, 0;
      while i < N
        modifies S
        invariant i <= N && j < N && k == i % |key| && Permutation(S[..])
        invariant Schedule(key, S[..], i, j) == Schedule(key, Identity(N), 0, 0)
      {
        ScheduleStep(key, S[..], i, j);
        j := (j + key[k] as nat + S[i]) % N;
        SwapPermutation(S[..], i, j);
        SwapEntries(i, j);
        NextIndex(i, |key|);
        k := k + 1;
        if k >= |key| { k := 0; }
        i := i + 1;
      }
      ScheduleEnd(key, S[..], j);
    }

    method SwapEntries(i: nat, j: nat)
      requires i < S.Length && j < S.Length
      modifies S
      ensures S[..] == Swap(old(S[..]), i, j)
    {
      var a := S[i];
      S[i] := S[j];
      S[j] := a;
    }

    /** One turn of the loop: swap, fetch for the next swap, and only then look up the byte. */
    method Turn(ghost s: State, cx: nat, cy: nat, a: nat, b: nat)
      returns (k: nat, nx: nat, ny: nat, na: nat, nb: nat)
      requires StateOk(s) && S[..] == s.S && Fetched(s, cx, cy, a, b)
      modifies S
      ensures S[..] == Step(s).0.S && k == Step(s).1 && k < N
      ensures Step(s).0.i == cx && Step(s).0.j == cy && nx == (cx + 1) % N
      ensures Fetched(Step(s).0, nx, ny, na, nb)
    {
      hide Permutation, Step;
      SizeOk(s.S);
      StepOk(s);
      PipeStep(s, cx, cy, a, b);
      SizeOk(Step(s).0.S);
      ghost var swapped: seq<nat> := s.S[cy := a][cx := b];
      S[cy] := a;
      var t := (a + b) % N;
      S[cx] := b;
      assert S[..] == swapped;
      nx := (cx + 1) % N;
      na := S[nx];
      ny := (cy + na) % N;
      nb := S[ny];
      k := S[t];
    }

    /** The pipelined loop: a and b are fetched for the next swap before the byte goes out. */
    method CryptBytes(text: seq<bv8>) returns (out: seq<bv8>)
      requires Valid()
      modifies this, S
      ensures Valid() && (View(), out) == Crypt(old(View()), text)
    {
      hide Step, Crypt, Permutation, Xor, Progress, Fetched;
      out := [];
      ghost var s := View();
      ghost var s0 := s;
      CryptNone(s);
      if text == [] { return; }
      SizeOk(S[..]);
      FirstFetch(s, x);
      ProgressStart(s, text);
      var cx: nat, cy: nat := x, y;
      var a: nat := S[cx];
      cy := (cy + a) % N;
      var b: nat := S[cy];
      var len := |text|;
      while true
        invariant 0 < len == |text| - |out| && StateOk(s) && s.S == S[..]
        invariant Fetched(s, cx, cy, a, b) && Progress(s0, s, text, out)
        decreases len
        modifies S
      {
        StepOk(s);
        ProgressStep(s0, s, text, out);
        var k: nat, nx: nat, ny: nat, na: nat, nb: nat := Turn(s, cx, cy, a, b);
        out := out + [Xor(text[|out|], k)];
        s := Step(s).0;
        len := len - 1;
        cx := nx;
        if len == 0 { break; }
        cy, a, b := ny, na, nb;
      }
      ProgressEnd(s0, s, text, out);
      StateParts(s);
      ViewIndex(s.i);
      x, y := cx, cy;
    }
  }

  /** out is the first part of the result, and s the state it leaves. */
  ghost predicate Progress(s0: State, s: State, text: seq<bv8>, out: seq<bv8>) {
    && StateOk(s0) && StateOk(s) && |out| <= |text|
    && Crypt(s0, text) == (Crypt(s, text[|out|..]).0, out + Crypt(s, text[|out|..]).1)
  }

  lemma ProgressStart(s: State, text: seq<bv8>)
    requires StateOk(s)
    ensures Progress(s, s, text, [])
  {
    hide Crypt;
    assert text[0..] == text;
    assert [] + Crypt(s, text).1 == Crypt(s, text).1;
  }

  lemma ProgressStep(s0: State, s: State, text: seq<bv8>, out: seq<bv8>)
    requires Progress(s0, s, text, out) && StateOk(s) && |out| < |text|
    ensures Step(s).1 < N && Progress(s0, Step(s).0, text, out + [Xor(text[|out|], Step(s).1)])
  {
    hide Crypt, Step, Xor;
    CryptFirst(s, text[|out|..]);
    assert text[|out|..][1..] == text[|out| + 1..];
    Regroup(out, Xor(text[|out|], Step(s).1), Crypt(Step(s).0, text[|out| + 1..]).1);
  }

  lemma ProgressEnd(s0: State, s: State, text: seq<bv8>, out: seq<bv8>)
    requires Progress(s0, s, text, out) && |out| == |text|
    ensures StateOk(s0) && Crypt(s0, text) == (s, out)
  {
    assert text[|out|..] == [];
    assert out + [] == out;
  }

  lemma FirstFetch(s: State, x: nat)
    requires StateOk(s) && x < N && s.i == (x + N - 1) % N
    ensures |s.S| == N && Fetched(s, x, (s.j + s.S[x]) % N, s.S[x], s.S[(s.j + s.S[x]) % N])
  {
    ViewIndex(x);
  }

  lemma ScheduleStep(key: seq<bv8>, S: seq<nat>, i: nat, j: nat)
    requires key != [] && Permutation(S) && i < N && j < N
    ensures |S| == N
    ensures var j' := (j + key[i % |key|] as nat + S[i]) % N;
      Permutation(Swap(S, i, j')) && Schedule(key, S, i, j) == Schedule(key, Swap(S, i, j'), i + 1, j')
  {
    SwapPermutation(S, i, (j + key[i % |key|] as nat + S[i]) % N);
  }

  lemma ScheduleEnd(key: seq<bv8>, S: seq<nat>, j: nat)
    requires key != [] && Permutation(S) && j < N
    ensures Schedule(key, S, N, j) == S
  {
  }

  lemma IdentityOk()
    ensures Permutation(Identity(N))
  {
  }

  lemma CryptNone(s: State)
    requires StateOk(s)
    ensures Crypt(s, []) == (s, [])
  {
  }

  lemma SizeOk(S: seq<nat>)
    requires Permutation(S)
    ensures |S| == N
  {
  }

  lemma StateParts(s: State)
    requires StateOk(s)
    ensures Permutation(s.S) && s.i < N && s.j < N
  {
  }

  /** Going back one and forward again. */
  lemma ViewIndex(x: nat)
    requires x < N
    ensures ((x + N - 1) % N + 1) % N == x
    ensures ((x + 1) % N + N - 1) % N == x
  {
  }

  /** What the loop holds for the next swap of s. */
  ghost predicate Fetched(s: State, cx: nat, cy: nat, a: nat, b: nat) {
    |s.S| == N && cx == (s.i + 1) % N && a == s.S[cx] && cy == (s.j + a) % N && b == s.S[cy]
  }

  /** Storing the fetched values the other way round is the textbook's swap, and the sum of
      the two is the index of the key byte. */
  lemma PipeStep(s: State, cx: nat, cy: nat, a: nat, b: nat)
    requires StateOk(s) && Fetched(s, cx, cy, a, b)
    ensures var (s', k) := Step(s);
      && s'.S == s.S[cy := a][cx := b] && s'.i == cx && s'.j == cy
      && k == s'.S[(a + b) % N]
  {
    assert s.S[cy := a][cx := b] == Swap(s.S, cx, cy);
  }

  lemma NextIndex(i: nat, n: nat)
    requires n > 0
    ensures (i + 1) % n == if i % n + 1 >= n then 0 else i % n + 1
  {
    var q, r := i / n, i % n;
    assert i == q * n + r;
    if r + 1 < n {
      DivModUnique(i + 1, n, q, r + 1);
    } else {
      Distribute(q, 1, n);
      DivModUnique(i + 1, n, q + 1, 0);
    }
  }

  lemma Regroup(xs: seq<bv8>, b: bv8, ys: seq<bv8>)
    ensures xs + ([b] + ys) == xs + [b] + ys
  {
  }
}
