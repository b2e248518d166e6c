// Bit maps in machine words, and the search for the lowest set bit.
module BitScan {

  // 1 << n
  function Mask8(n: nat): bv8
    requires n < 8
  {
    1 << n
  }

  function Mask32(n: nat): bv32
    requires n < 32
  {
    1 << n
  }

  predicate Meets8(w: bv8, m: bv8) { w & m != 0 }

  predicate Meets32(w: bv32, m: bv32) { w & m != 0 }

  predicate Set8(w: bv8, n: nat)
    requires n < 8
  {
    Meets8(w, Mask8(n))
  }

  predicate Set32(w: bv32, n: nat)
    requires n < 32
  {
    Meets32(w, Mask32(n))
  }

  lemma Masks8(n: nat)
    requires n < 8
    ensures Mask8(n) == if n == 0 then 1 else if n == 1 then 2 else if n == 2 then 4 else if n == 3 then 8
                        else if n == 4 then 16 else if n == 5 then 32 else if n == 6 then 64 else 128
  {
  }

  lemma Masks32(n: nat)
    requires n < 32
    ensures n < 8 ==> Mask32(n) == Mask8(n) as bv32
    ensures 8 <= n < 16 ==> Mask32(n) == (Mask8(n - 8) as bv32) << 8
    ensures 16 <= n < 24 ==> Mask32(n) == (Mask8(n - 16) as bv32) << 16
    ensures 24 <= n ==> Mask32(n) == (Mask8(n - 24) as bv32) << 24
  {
  }

  lemma MasksApart8(n: nat, j: nat)
    requires n < 8 && j < 8
    ensures Mask8(n) != 0
    ensures n != j ==> Mask8(n) & Mask8(j) == 0
  {
    Masks8(n);
    Masks8(j);
    hide Mask8;
  }

  lemma BitsApart8(w: bv8, m: bv8, k: bv8)
    requires m & k == 0
    ensures (w | m) & k == w & k && (w & !m) & k == w & k
  {
  }

  lemma BitsSame8(w: bv8, m: bv8)
    requires m != 0
    ensures (w | m) & m != 0 && (w & !m) & m == 0
  {
  }

  function With8(w: bv8, m: bv8): bv8 { w | m }

  function Without8(w: bv8, m: bv8): bv8 { w & !m }

  function With32(w: bv32, m: bv32): bv32 { w | m }

  function Without32(w: bv32, m: bv32): bv32 { w & !m }

  lemma Apart8(w: bv8, m: bv8, k: bv8)
    requires m & k == 0
    ensures Meets8(With8(w, m), k) == Meets8(w, k) && Meets8(Without8(w, m), k) == Meets8(w, k)
  {
    BitsApart8(w, m, k);
  }

  lemma Same8(w: bv8, m: bv8)
    requires m != 0
    ensures Meets8(With8(w, m), m) && !Meets8(Without8(w, m), m)
  {
    BitsSame8(w, m);
  }

  lemma Update8(w: bv8, n: nat, j: nat)
    requires n < 8 && j < 8
    ensures Set8(With8(w, Mask8(n)), j) <==> Set8(w, j) || j == n
    ensures Set8(Without8(w, Mask8(n)), j) <==> Set8(w, j) && j != n
  {
    hide Mask8, Meets8, With8, Without8;
    MasksApart8(n, j);
    if n == j { Same8(w, Mask8(n)); } else { Apart8(w, Mask8(n), Mask8(j)); }
  }

  lemma Empty8(w: bv8)
    ensures w == 0 <==> forall j :: 0 <= j < 8 ==> !Set8(w, j)
  {
    Masks8(0); Masks8(1); Masks8(2); Masks8(3); Masks8(4); Masks8(5); Masks8(6); Masks8(7);
    hide Mask8;
    if forall j :: 0 <= j < 8 ==> !Set8(w, j) {
      assert !Set8(w, 0) && !Set8(w, 1) && !Set8(w, 2) && !Set8(w, 3) && !Set8(w, 4) && !Set8(w, 5) && !Set8(w, 6) &&
             !Set8(w, 7);
    }
  }

  // The i-th byte of a word, the way the scan takes it out.
  function Byte(w: bv32, i: nat): bv8
    requires i < 4
  {
    if i == 0 then (w & 0xFF) as bv8
    else if i == 1 then ((w & 0xFF00) >> 8) as bv8
    else if i == 2 then ((w & 0xFF0000) >> 16) as bv8
    else ((w & 0xFF000000) >> 24) as bv8
  }

  function Spread(m: bv8, i: nat): bv32
    requires i < 4
  {
    if i == 0 then m as bv32
    else if i == 1 then (m as bv32) << 8
    else if i == 2 then (m as bv32) << 16
    else (m as bv32) << 24
  }

  lemma ByteBit(w: bv32, m: bv8, i: nat)
    requires i < 4
    ensures Meets32(w, Spread(m, i)) <==> Meets8(Byte(w, i), m)
  {
  }

  lemma MaskSpread(i: nat, k: nat)
    requires i < 4 && k < 8
    ensures Mask32(8 * i + k) == Spread(Mask8(k), i)
  {
    Masks32(8 * i + k);
    hide Mask8, Mask32;
  }

  lemma BitOfByte(w: bv32, i: nat, k: nat)
    requires i < 4 && k < 8
    ensures Set32(w, 8 * i + k) <==> Set8(Byte(w, i), k)
  {
    hide Mask8, Mask32, Spread, Byte, Meets8, Meets32;
    MaskSpread(i, k);
    ByteBit(w, Mask8(k), i);
  }

  lemma BytesZero(w: bv32)
    ensures w == 0 <==> Byte(w, 0) == 0 && Byte(w, 1) == 0 && Byte(w, 2) == 0 && Byte(w, 3) == 0
  {
  }

  lemma MasksApart32(n: nat, j: nat)
    requires n < 32 && j < 32
    ensures Meets32(Mask32(n), Mask32(j)) <==> n == j
  {
  }

  // ---- __lowest_bit_bitmap, sixteen entries a row ----

  const LOWEST: seq<seq<nat>> := [
    /* 00 */ [0, 0, 1, 0, 2, 0, 1, 0, 3, 0, 1, 0, 2, 0, 1, 0],
    /* 10 */ [4, 0, 1, 0, 2, 0, 1, 0, 3, 0, 1, 0, 2, 0, 1, 0],
    /* 20 */ [5, 0, 1, 0, 2, 0, 1, 0, 3, 0, 1, 0, 2, 0, 1, 0],
    /* 30 */ [4, 0, 1, 0, 2, 0, 1, 0, 3, 0, 1, 0, 2, 0, 1, 0],
    /* 40 */ [6, 0, 1, 0, 2, 0, 1, 0, 3, 0, 1, 0, 2, 0, 1, 0],
    /* 50 */ [4, 0, 1, 0, 2, 0, 1, 0, 3, 0, 1, 0, 2, 0, 1, 0],
    /* 60 */ [5, 0, 1, 0, 2, 0, 1, 0, 3, 0, 1, 0, 2, 0, 1, 0],
    /* 70 */ [4, 0, 1, 0, 2, 0, 1, 0, 3, 0, 1, 0, 2, 0, 1, 0],
    /* 80 */ [7, 0, 1, 0, 2, 0, 1, 0, 3, 0, 1, 0, 2, 0, 1, 0],
    /* 90 */ [4, 0, 1, 0, 2, 0, 1, 0, 3, 0, 1, 0, 2, 0, 1, 0],
    /* A0 */ [5, 0, 1, 0, 2, 0, 1, 0, 3, 0, 1, 0, 2, 0, 1, 0],
    /* B0 */ [4, 0, 1, 0, 2, 0, 1, 0, 3, 0, 1, 0, 2, 0, 1, 0],
    /* C0 */ [6, 0, 1, 0, 2, 0, 1, 0, 3, 0, 1, 0, 2, 0, 1, 0],
    /* D0 */ [4, 0, 1, 0, 2, 0, 1, 0, 3, 0, 1, 0, 2, 0, 1, 0],
    /* E0 */ [5, 0, 1, 0, 2, 0, 1, 0, 3, 0, 1, 0, 2, 0, 1, 0],
    /* F0 */ [4, 0, 1, 0, 2, 0, 1, 0, 3, 0, 1, 0, 2, 0, 1, 0]
  ]

  const ROW: seq<nat> := [0, 1, 0, 2, 0, 1, 0, 3, 0, 1, 0, 2, 0, 1, 0]

  lemma RowTails(r: nat)
    requires r < 16
    ensures |LOWEST| == 16 && |LOWEST[r]| == 16 && LOWEST[r][1..] == ROW
  {
  }

  lemma RowHeads(r: nat)
    requires 0 < r < 16
    ensures |LOWEST| == 16 && |LOWEST[r]| == 16 && LOWEST[r][0] == 4 + if r % 2 == 1 then 0 else ROW[r - 1]
  {
  }

  lemma Rows(r: nat)
    requires r < 16
    ensures |LOWEST| == 16 && |LOWEST[r]| == 16 && LOWEST[r][1..] == ROW
    ensures r > 0 ==> LOWEST[r][0] == 4 + if r % 2 == 1 then 0 else ROW[r - 1]
  {
    hide LOWEST;
    RowTails(r);
    if r > 0 { RowHeads(r); }
  }

  lemma Nibble(x: bv8)
    requires x < 16
    ensures x as nat < 16
    ensures x as nat == if x == 0 then 0 else if x == 1 then 1 else if x == 2 then 2 else if x == 3 then 3
      else if x == 4 then 4 else if x == 5 then 5 else if x == 6 then 6 else if x == 7 then 7
      else if x == 8 then 8 else if x == 9 then 9 else if x == 10 then 10 else if x == 11 then 11
      else if x == 12 then 12 else if x == 13 then 13 else if x == 14 then 14 else 15
  {
  }

  ghost predicate IsLowest8(b: bv8, k: nat) {
    k < 8 && Set8(b, k) && forall j :: 0 <= j < k ==> !Set8(b, j)
  }

  ghost predicate IsLowest32(w: bv32, k: nat) {
    k < 32 && Set32(w, k) && forall j :: 0 <= j < k ==> !Set32(w, j)
  }

  // Which bit is lowest, by trying them in order.
  function LowestTried(b: bv8): nat {
    if b & 1 != 0 then 0 else if b & 2 != 0 then 1 else if b & 4 != 0 then 2 else if b & 8 != 0 then 3
    else if b & 16 != 0 then 4 else if b & 32 != 0 then 5 else if b & 64 != 0 then 6 else 7
  }

  lemma TriedIsLowest(b: bv8)
    requires b != 0
    ensures IsLowest8(b, LowestTried(b))
  {
    Masks8(0); Masks8(1); Masks8(2); Masks8(3); Masks8(4); Masks8(5); Masks8(6); Masks8(7);
    hide Mask8;
  }

  lemma LowDigit(b: bv8)
    requires b & 15 != 0
    ensures 0 < (b & 15) as nat < 16 && LowestTried(b) == ROW[(b & 15) as nat - 1]
  {
    Nibble(b & 15);
  }

  lemma HighDigit(b: bv8)
    requires b != 0 && b & 15 == 0
    ensures 0 < (b >> 4) as nat < 16
            && LowestTried(b) == 4 + if (b >> 4) as nat % 2 == 1 then 0 else ROW[(b >> 4) as nat - 1]
  {
    Nibble(b >> 4);
  }

  // The table entry for a byte: its row is the high digit, its column the low one.
  function Lookup(b: bv8): nat {
    Nibble(b >> 4);
    Nibble(b & 15);
    Rows((b >> 4) as nat);
    LOWEST[(b >> 4) as nat][(b & 15) as nat]
  }

  lemma TableIsRight(b: bv8)
    requires b != 0
    ensures IsLowest8(b, Lookup(b))
  {
    hide Set8;
    TriedIsLowest(b);
    Nibble(b >> 4);
    Nibble(b & 15);
    Rows((b >> 4) as nat);
    if b & 15 != 0 {
      LowDigit(b);
      assert LOWEST[(b >> 4) as nat][1..][(b & 15) as nat - 1] == LOWEST[(b >> 4) as nat][(b & 15) as nat];
    } else {
      HighDigit(b);
    }
  }

  // __rt_ffs
  function Ffs(value: bv32): nat {
    if value == 0 then 0
    else if value & 0xFF != 0 then Lookup((value & 0xFF) as bv8) + 1
    else if value & 0xFF00 != 0 then Lookup(((value & 0xFF00) >> 8) as bv8) + 9
    else if value & 0xFF0000 != 0 then Lookup(((value & 0xFF0000) >> 16) as bv8) + 17
    else Lookup(((value & 0xFF000000) >> 24) as bv8) + 25
  }

  lemma ByteSigns(w: bv32)
    ensures Byte(w, 0) == 0 <==> w & 0xFF == 0
    ensures Byte(w, 1) == 0 <==> w & 0xFF00 == 0
    ensures Byte(w, 2) == 0 <==> w & 0xFF0000 == 0
    ensures Byte(w, 3) == 0 <==> w & 0xFF000000 == 0
  {
  }

  lemma FirstByte(w: bv32)
    requires w != 0
    ensures exists i: nat :: FirstByteIs(w, i) && Ffs(w) == 8 * i + Lookup(Byte(w, i)) + 1
  {
    hide Lookup;
    ByteSigns(w);
    BytesZero(w);
    if Byte(w, 0) != 0 {
      assert FirstByteIs(w, 0);
    } else if Byte(w, 1) != 0 {
      assert FirstByteIs(w, 1);
    } else if Byte(w, 2) != 0 {
      assert FirstByteIs(w, 2);
    } else {
      assert FirstByteIs(w, 3);
    }
  }

  ghost predicate FirstByteIs(w: bv32, i: nat) {
    i < 4 && Byte(w, i) != 0 && forall h: nat :: h < i ==> Byte(w, h) == 0
  }

  // The scan finds the lowest set bit, counting from 1, and 0 only for an empty word.
  lemma FfsIsLowest(w: bv32)
    ensures w == 0 ==> Ffs(w) == 0
    ensures w != 0 ==> Ffs(w) > 0 && IsLowest32(w, Ffs(w) - 1)
  {
    hide Lookup, Byte, Set8, Set32;
    if w != 0 {
      FirstByte(w);
      hide Ffs;
      var i: nat :| FirstByteIs(w, i) && Ffs(w) == 8 * i + Lookup(Byte(w, i)) + 1;
      var b := Byte(w, i);
      TableIsRight(b);
      BitOfByte(w, i, Lookup(b));
      forall j | 0 <= j < 8 * i + Lookup(b) ensures !Set32(w, j) {
        BitOfByte(w, j / 8, j % 8);
        if j / 8 < i { Empty8(Byte(w, j / 8)); }
      }
    }
  }

  lemma WithApart32(w: bv32, m: bv32, k: bv32)
    requires m & k == 0
    ensures (w | m) & k == w & k
  {
    hide *;
  }

  lemma WithoutApart32(w: bv32, m: bv32, k: bv32)
    requires m & k == 0
    ensures (w & !m) & k == w & k
  {
    hide *;
  }

  lemma WithMeets32(w: bv32, m: bv32, k: bv32)
    requires !Meets32(m, k)
    ensures Meets32(With32(w, m), k) == Meets32(w, k)
  {
    WithApart32(w, m, k);
    var v := w | m;
    assert With32(w, m) == v && v & k == w & k;
  }

  lemma WithoutMeets32(w: bv32, m: bv32, k: bv32)
    requires !Meets32(m, k)
    ensures Meets32(Without32(w, m), k) == Meets32(w, k)
  {
    WithoutApart32(w, m, k);
    var v := w & !m;
    assert Without32(w, m) == v && v & k == w & k;
  }

  lemma BitsSame32(w: bv32, m: bv32)
    requires Meets32(m, m)
    ensures Meets32(With32(w, m), m) && !Meets32(Without32(w, m), m)
  {
  }

  lemma Update32(w: bv32, n: nat, j: nat)
    requires n < 32 && j < 32
    ensures Set32(With32(w, Mask32(n)), j) <==> Set32(w, j) || j == n
    ensures Set32(Without32(w, Mask32(n)), j) <==> Set32(w, j) && j != n
  {
    hide Mask32, Meets32, With32, Without32;
    MasksApart32(n, j);
    if n == j {
      BitsSame32(w, Mask32(n));
    } else {
      WithMeets32(w, Mask32(n), Mask32(j));
      WithoutMeets32(w, Mask32(n), Mask32(j));
    }
  }

  lemma Empty32(w: bv32)
    ensures w == 0 <==> forall j :: 0 <= j < 32 ==> !Set32(w, j)
  {
    if w != 0 {
      FfsIsLowest(w);
    } else {
      forall j | 0 <= j < 32 ensures !Set32(w, j) {}
    }
  }

  lemma SameBits8(a: bv8, b: bv8)
    requires forall k :: 0 <= k < 8 ==> (Set8(a, k) <==> Set8(b, k))
    ensures a == b
  {
    Masks8(0); Masks8(1); Masks8(2); Masks8(3); Masks8(4); Masks8(5); Masks8(6); Masks8(7);
    hide Mask8;
    assert Set8(a, 0) <==> Set8(b, 0);
    assert Set8(a, 1) <==> Set8(b, 1);
    assert Set8(a, 2) <==> Set8(b, 2);
    assert Set8(a, 3) <==> Set8(b, 3);
    assert Set8(a, 4) <==> Set8(b, 4);
    assert Set8(a, 5) <==> Set8(b, 5);
    assert Set8(a, 6) <==> Set8(b, 6);
    assert Set8(a, 7) <==> Set8(b, 7);
  }

  lemma SameBits32(a: bv32, b: bv32)
    requires forall k :: 0 <= k < 32 ==> (Set32(a, k) <==> Set32(b, k))
    ensures a == b
  {
    hide Set8, Set32, Byte;
    forall i | 0 <= i < 4 ensures Byte(a, i) == Byte(b, i) {
      forall k | 0 <= k < 8 ensures Set8(Byte(a, i), k) <==> Set8(Byte(b, i), k) {
        BitOfByte(a, i, k);
        BitOfByte(b, i, k);
      }
      SameBits8(Byte(a, i), Byte(b, i));
    }
    SameBytes(a, b);
  }

  lemma SameBytes(a: bv32, b: bv32)
    requires Byte(a, 0) == Byte(b, 0) && Byte(a, 1) == Byte(b, 1) && Byte(a, 2) == Byte(b, 2) &&
             Byte(a, 3) == Byte(b, 3)
    ensures a == b
  {
  }
}
