/** Windows of a circular buffer. */
module Circular {

  /** `n` elements of a circular buffer from index `start` on. */
  ghost function Window<T>(mem: seq<T>, start: nat, n: nat): (w: seq<T>)
    requires start <= |mem| && n <= |mem|
    ensures |w| == n
  {
    if start + n <= |mem| then mem[start..start + n] else mem[start..] + mem[..start + n - |mem|]
  }

  /** Index `i` of a buffer of `size` elements, wrapped once. */
  ghost function Wrap(i: nat, size: nat): nat
    requires i <= 2 * size
  {
    if i < size then i else i - size
  }

  lemma WindowAt<T>(mem: seq<T>, start: nat, n: nat, i: nat)
    requires start < |mem| && i < n <= |mem|
    ensures Window(mem, start, n)[i] == mem[Wrap(start + i, |mem|)]
  {
  }

  /** A chunk written behind the window extends the window. */
  lemma WindowExtends<T>(mem: seq<T>, mem': seq<T>, start: nat, n: nat, chunk: seq<T>)
    requires start < |mem| && n <= |mem|
    requires var at := Wrap(start + n, |mem|);
             && |chunk| <= |mem| - n && |chunk| <= |mem| - at
             && mem' == mem[..at] + chunk + mem[at + |chunk|..]
    ensures Window(mem', start, n + |chunk|) == Window(mem, start, n) + chunk
  {
    hide Window;
    var at := Wrap(start + n, |mem|);
    var w, w' := Window(mem, start, n) + chunk, Window(mem', start, n + |chunk|);
    forall i: nat | i < n + |chunk| ensures w'[i] == w[i] {
      WindowAt(mem', start, n + |chunk|, i);
      var j := Wrap(start + i, |mem|);
      if i < n {
        WindowAt(mem, start, n, i);
        assert mem'[j] == mem[j];
      } else {
        assert j == at + (i - n) && mem'[j] == chunk[i - n];
      }
    }
  }

  /** Elements copied out of the front of the window leave the rest of it. */
  lemma WindowSplits<T>(mem: seq<T>, start: nat, n: nat, k: nat)
    requires start < |mem| && k <= n <= |mem| && start + k <= |mem|
    ensures Window(mem, start, n) == mem[start..start + k] + Window(mem, Wrap(start + k, |mem|), n - k)
  {
    hide Window;
    var w, v := Window(mem, start, n), Window(mem, Wrap(start + k, |mem|), n - k);
    forall i: nat | i < n ensures w[i] == (mem[start..start + k] + v)[i] {
      WindowAt(mem, start, n, i);
      if i >= k {
        WindowAt(mem, Wrap(start + k, |mem|), n - k, i - k);
      }
    }
  }
}
