// rt_memmove: a copy that is right even when the two areas overlap.
module MemMove {

  // What memory holds after n bytes from src have been moved to dest.
  function Moved(mem: seq<bv8>, dest: nat, src: nat, n: nat): seq<bv8>
    requires dest + n <= |mem| && src + n <= |mem|
  {
    mem[..dest] + mem[src..src + n] + mem[dest + n..]
  }

  lemma MovedMeans(mem: seq<bv8>, dest: nat, src: nat, n: nat)
    requires dest + n <= |mem| && src + n <= |mem|
    ensures |Moved(mem, dest, src, n)| == |mem| && Moved(mem, dest, src, n)[dest..dest + n] == mem[src..src + n]
    ensures forall i :: 0 <= i < |mem| && !(dest <= i < dest + n) ==> Moved(mem, dest, src, n)[i] == mem[i]
  {
  }

  method MemMove(mem: array<bv8>, dest: nat, src: nat, n: nat)
    requires dest + n <= mem.Length && src + n <= mem.Length
    modifies mem
    ensures mem[..] == Moved(old(mem[..]), dest, src, n)
    ensures mem[dest..dest + n] == old(mem[src..src + n])
    ensures forall i :: 0 <= i < mem.Length && !(dest <= i < dest + n) ==> mem[i] == old(mem[..])[i]
  {
    ghost var was := mem[..];
    if src < dest < src + n {
      var k := n;
      while k > 0
        invariant 0 <= k <= n
        invariant forall i :: dest + k <= i < dest + n ==> mem[i] == was[i - dest + src]
        invariant forall i :: 0 <= i < mem.Length && !(dest + k <= i < dest + n) ==> mem[i] == was[i]
      {
        k := k - 1;
        mem[dest + k] := mem[src + k];
      }
    } else {
      var k := 0;
      while k < n
        invariant 0 <= k <= n
        invariant forall i :: dest <= i < dest + k ==> mem[i] == was[i - dest + src]
        invariant forall i :: 0 <= i < mem.Length && !(dest <= i < dest + k) ==> mem[i] == was[i]
      {
        mem[dest + k] := mem[src + k];
        k := k + 1;
      }
    }
    ghost var moved := Moved(was, dest, src, n);
    MovedMeans(was, dest, src, n);
    forall i | 0 <= i < mem.Length ensures mem[i] == moved[i] {
      if dest <= i < dest + n { assert moved[i] == was[src..src + n][i - dest]; }
    }
  }

  // Areas that are apart: the source survives, and moving it back changes nothing.
  lemma SourceSurvives(mem: seq<bv8>, dest: nat, src: nat, n: nat)
    requires dest + n <= |mem| && src + n <= |mem| && (dest + n <= src || src + n <= dest)
    ensures Moved(mem, dest, src, n)[src..src + n] == mem[src..src + n]
    ensures Moved(Moved(mem, dest, src, n), src, dest, n) == Moved(mem, dest, src, n)
  {
    var m := Moved(mem, dest, src, n);
    var back := Moved(m, src, dest, n);
    assert m[dest..dest + n] == mem[src..src + n];
    forall i | 0 <= i < |m| ensures back[i] == m[i] {
      if src <= i < src + n { assert back[i] == m[dest..dest + n][i - src]; }
    }
  }
}
