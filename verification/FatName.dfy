/** 8.3 names: from a path segment to the 11 bytes of a directory entry, and back to text. */
module FatName {
  import opened Bytes
  import FatDirState

  datatype Option<T> = None | Some(value: T)

  /** Upper case of the extended characters of code page 1251. */
  function Upper(c: byte): (u: byte)
    ensures c >= 0x80 ==> u >= 0x80
  {
    match c
    case 0x83 => 0x82
    case 0x90 => 0x80
    case 0x9A => 0x8A
    case 0x9C => 0x8C
    case 0x9D => 0x8D
    case 0x9E => 0x8E
    case 0x9F => 0x8F
    case 0xA1 => 0xA2
    case 0xB3 => 0xB2
    case 0xB4 => 0xA5
    case 0xB8 => 0xA8
    case 0xBA => 0xAA
    case 0xBC => 0xA3
    case 0xBE => 0xBD
    case 0xBF => 0xAF
    case _ => if c >= 0xE0 then c - 0x20 else c
  }

  /** Characters that no short name may contain. */
  predicate Illegal(c: byte) {
    c in {0x22, 0x2A, 0x2B, 0x2C, 0x3A, 0x3B, 0x3C, 0x3D, 0x3E, 0x3F, 0x5B, 0x5D, 0x7C, 0x7F}
  }

  predicate Separator(c: byte) { c == 0x2F || c == 0x5C }

  /** A character that ends a segment: blank, control or separator. */
  predicate Ends(c: byte) { c <= 0x20 || Separator(c) }

  /** The character as it is stored. */
  function Stored(c: byte): byte {
    if c >= 0x80 then Upper(c) else if 0x61 <= c <= 0x7A then c - 0x20 else c
  }

  /** Storing a stored character changes nothing. */
  lemma StoredTwice(c: byte)
    requires !Illegal(if c >= 0x80 then Upper(c) else c) && !Ends(c) && c != 0x2E
    ensures Good(Stored(c))
  {
  }

  /** What a stored name consists of besides padding. */
  predicate Good(c: byte) { !Ends(c) && c != 0x2E && !Illegal(c) && Stored(c) == c }

  // ---------- From a segment to a name ----------

  /** The characters stored, and how far they reach. */
  datatype Scanned = Scanned(sfn: seq<byte>, i: nat)

  /** Scanning the segment `p` with `i` characters stored so far, below the limit `ni`. */
  function Scan(p: seq<byte>, sfn: seq<byte>, i: nat, ni: nat): (r: Option<Scanned>)
    requires |sfn| == 11 && i <= 11 && ni <= 11
    ensures r.Some? ==> |r.value.sfn| == 11
  {
    if p == [] || Ends(p[0]) then Some(Scanned(sfn, i))
    else if p[0] == 0x2E || i >= ni then
      if ni != 8 || p[0] != 0x2E then None else Scan(p[1..], sfn, 8, 11)
    else if Illegal(if p[0] >= 0x80 then Upper(p[0]) else p[0]) then None
    else Scan(p[1..], sfn[i := Stored(p[0])], i + 1, ni)
  }

  function Blanks(): (s: seq<byte>)
    ensures |s| == 11
  {
    seq(11, _ => 0x20)
  }

  /** The name that a path segment stands for, if it is accepted. A first character that collides
      with the mark of deleted entries is replaced. */
  function NameOf(p: seq<byte>): Option<seq<byte>> {
    match Scan(p, Blanks(), 0, 8)
    case None => None
    case Some(Scanned(sfn, i)) =>
      if i == 0 then None else Some(if sfn[0] == 0xE5 then sfn[0 := 0x05] else sfn)
  }

  /** Past leading separators. */
  function Stripped(p: seq<byte>): seq<byte> {
    if p != [] && Separator(p[0]) then Stripped(p[1..]) else p
  }

  /** `create_name`: the name of the first segment of a path. */
  method CreateName(path: seq<byte>) returns (name: Option<seq<byte>>)
    ensures name == NameOf(Stripped(path))
  {
    var k := 0;
    while k < |path| && Separator(path[k])
      invariant k <= |path| && Stripped(path[k..]) == Stripped(path)
    {
      k := k + 1;
    }
    var p := path[k..];
    var sfn, si, i, ni := Blanks(), 0, 0, 8;
    while si < |p| && !Ends(p[si])
      invariant si <= |p| && |sfn| == 11 && i <= 11 && (ni == 8 || ni == 11)
      invariant Scan(p[si..], sfn, i, ni) == Scan(p, Blanks(), 0, 8)
    {
      var c := p[si];
      si := si + 1;
      if c == 0x2E || i >= ni {
        if ni != 8 || c != 0x2E { return None; }
        i, ni := 8, 11;
      } else {
        if c >= 0x80 { c := Upper(c); }
        if Illegal(c) { return None; }
        if 0x61 <= c <= 0x7A { c := c - 0x20; }
        sfn := sfn[i := c];
        i := i + 1;
      }
    }
    if i == 0 { return None; }
    if sfn[0] == 0xE5 { sfn := sfn[0 := 0x05]; }
    return Some(sfn);
  }

  // ---------- From a name to text ----------

  /** The text of a stored name from byte `i` on. */
  function TextFrom(dir: seq<byte>, i: nat): (t: seq<byte>)
    requires |dir| == 11 && i <= 11
    decreases 11 - i
  {
    if i == 11 then []
    else if dir[i] == 0x20 then TextFrom(dir, i + 1)
    else (if i == 8 then [0x2E] else []) + [if dir[i] == 0x05 then 0xE5 else dir[i]] + TextFrom(dir, i + 1)
  }

  /** `get_fileinfo`: padding is skipped, a dot inserted before the extension. */
  method GetFileInfo(dir: seq<byte>) returns (fname: seq<byte>)
    requires |dir| >= 11
    ensures fname == TextFrom(dir[..11], 0)
  {
    hide *;
    ghost var d := dir[..11];
    fname := [];
    var i := 0;
    while i < 11
      invariant i <= 11 && fname + TextFrom(d, i) == TextFrom(d, 0)
    {
      TextStep(d, i);
      var c := dir[i];
      i := i + 1;
      if c != 0x20 {
        if c == 0x05 { c := 0xE5; }
        Append(fname, if i == 9 then [0x2E] else [], [c], TextFrom(d, i));
        if i == 9 { fname := fname + [0x2E]; }
        fname := fname + [c];
      }
    }
    TextEnd(d);
  }

  lemma TextStep(dir: seq<byte>, i: nat)
    requires |dir| == 11 && i < 11
    ensures TextFrom(dir, i) == if dir[i] == 0x20 then TextFrom(dir, i + 1)
                                else (if i == 8 then [0x2E] else [])
                                     + [if dir[i] == 0x05 then 0xE5 else dir[i]] + TextFrom(dir, i + 1)
  {
  }

  lemma TextEnd(dir: seq<byte>)
    requires |dir| == 11
    ensures TextFrom(dir, 11) == []
  {
  }

  // ---------- The round trip ----------

  /** `n` characters of body, `m` of extension, padded with blanks. */
  ghost predicate Shape(sfn: seq<byte>, n: nat, m: nat) {
    && |sfn| == 11 && n <= 8 && m <= 3
    && forall k :: 0 <= k < 11 ==> if k < n || 8 <= k < 8 + m then Good(sfn[k]) else sfn[k] == 0x20
  }

  lemma Append(a: seq<byte>, b: seq<byte>, c: seq<byte>, d: seq<byte>)
    ensures a + (b + c + d) == a + b + c + d
    ensures b == [] ==> a + b == a
  {
  }

  /** The scan keeps the shape. */
  lemma {:induction false} ScanShape(p: seq<byte>, sfn: seq<byte>, i: nat, ni: nat, n: nat) returns (n': nat, m': nat)
    requires |sfn| == 11
    requires ((ni == 8 && i == n && Shape(sfn, n, 0)) || (ni == 11 && 8 <= i <= 11 && Shape(sfn, n, i - 8)))
    ensures Scan(p, sfn, i, ni).Some? ==> Shape(Scan(p, sfn, i, ni).value.sfn, n', m')
    decreases |p|
  {
    n', m' := n, if ni == 8 then 0 else i - 8;
    if p == [] || Ends(p[0]) {
    } else if p[0] == 0x2E || i >= ni {
      if ni == 8 && p[0] == 0x2E { n', m' := ScanShape(p[1..], sfn, 8, 11, n); }
    } else if !Illegal(if p[0] >= 0x80 then Upper(p[0]) else p[0]) {
      StoredTwice(p[0]);
      n', m' := ScanShape(p[1..], sfn[i := Stored(p[0])], i + 1, ni, if ni == 8 then n + 1 else n);
    }
  }

  /** The text of a name of that shape: body, dot if there is an extension, extension. */
  ghost function Text(sfn: seq<byte>, n: nat, m: nat): seq<byte>
    requires |sfn| == 11 && n <= 8 && m <= 3
  {
    sfn[..n] + (if m > 0 then [0x2E] + sfn[8..8 + m] else [])
  }

  lemma ShapeSize(sfn: seq<byte>, n: nat, m: nat)
    requires Shape(sfn, n, m)
    ensures |sfn| == 11 && n <= 8 && m <= 3
  {
  }

  /** One byte of the body. */
  lemma BodyByte(sfn: seq<byte>, n: nat, m: nat, i: nat)
    requires Shape(sfn, n, m) && i < 8
    ensures TextFrom(sfn, i) == (if i < n then [sfn[i]] else []) + TextFrom(sfn, i + 1)
  {
    TextStep(sfn, i);
    hide TextFrom;
  }

  lemma ExtensionByte(sfn: seq<byte>, n: nat, m: nat, i: nat)
    requires Shape(sfn, n, m) && 8 <= i < 11
    ensures TextFrom(sfn, i) == if i >= 8 + m then TextFrom(sfn, i + 1)
                                else (if i == 8 then [0x2E] else []) + [sfn[i]] + TextFrom(sfn, i + 1)
  {
    TextStep(sfn, i);
    hide TextFrom;
  }

  /** The extension, from byte `i` on. */
  lemma {:induction false} TextOfExtension(sfn: seq<byte>, n: nat, m: nat, i: nat)
    requires Shape(sfn, n, m) && 8 <= i <= 11
    ensures TextFrom(sfn, i) == if i >= 8 + m then [] else (if i == 8 then [0x2E] else []) + sfn[i..8 + m]
    decreases 11 - i
  {
    hide *;
    ShapeSize(sfn, n, m);
    if i == 11 {
      TextEnd(sfn);
    } else {
      TextOfExtension(sfn, n, m, i + 1);
      ExtensionByte(sfn, n, m, i);
      if i < 8 + m {
        var rest := if i + 1 >= 8 + m then [] else sfn[i + 1..8 + m];
        assert sfn[i..8 + m] == [sfn[i]] + rest;
        assert [] + rest == rest;
      }
    }
  }

  lemma {:induction false} TextOfBody(sfn: seq<byte>, n: nat, m: nat, i: nat)
    requires Shape(sfn, n, m) && i <= 8
    ensures TextFrom(sfn, i) == (if i >= n then [] else sfn[i..n]) + TextFrom(sfn, 8)
    decreases 8 - i
  {
    hide *;
    ShapeSize(sfn, n, m);
    var tail := TextFrom(sfn, 8);
    if i == 8 {
      assert [] + tail == tail;
    } else {
      TextOfBody(sfn, n, m, i + 1);
      BodyByte(sfn, n, m, i);
      var rest := if i + 1 >= n then [] else sfn[i + 1..n];
      if i < n {
        assert sfn[i..n] == [sfn[i]] + rest;
        assert [sfn[i]] + (rest + tail) == [sfn[i]] + rest + tail;
      } else {
        assert [] + (rest + tail) == rest + tail;
      }
    }
  }

  ghost predicate AllGood(s: seq<byte>) { forall x :: 0 <= x < |s| ==> Good(s[x]) }

  /** Scanning characters as they are stored puts them where they were. */
  lemma {:induction false} ScanStored(p: seq<byte>, k: nat, sfn: seq<byte>, i: nat, ni: nat)
    requires |sfn| == 11 && i + k <= ni <= 11 && k <= |p| && AllGood(p[..k])
    ensures Scan(p, sfn, i, ni) == Scan(p[k..], sfn[..i] + p[..k] + sfn[i + k..], i + k, ni)
    decreases k
  {
    if k == 0 {
      assert sfn[..i] + p[..0] + sfn[i..] == sfn && p[0..] == p;
    } else {
      var sfn1 := sfn[i := p[0]];
      assert p[..k][0] == p[0] && p[1..][..k - 1] == p[..k][1..];
      ScanStored(p[1..], k - 1, sfn1, i + 1, ni);
      assert p[1..][k - 1..] == p[k..];
      assert sfn1[..i + 1] + p[1..][..k - 1] + sfn1[i + 1 + (k - 1)..] == sfn[..i] + p[..k] + sfn[i + k..];
    }
  }

  /** The text of a name scans back to the name. */
  lemma ScanText(sfn: seq<byte>, n: nat, m: nat)
    requires Shape(sfn, n, m)
    ensures Scan(Text(sfn, n, m), Blanks(), 0, 8) == Some(Scanned(sfn, if m > 0 then 8 + m else n))
  {
    var t, b := Text(sfn, n, m), Blanks();
    TextParts(sfn, n, m);
    hide Text, Blanks, Shape, Good;
    ScanStored(t, n, b, 0, 8);
    var mid := b[..0] + t[..n] + b[0 + n..];
    if m > 0 {
      var ext := t[n + 1..];
      assert t[n..][1..] == ext;
      ScanStored(ext, m, mid, 8, 11);
      assert ext[m..] == [];
    }
  }

  /** The text in pieces, and the name put together from them. */
  lemma TextParts(sfn: seq<byte>, n: nat, m: nat)
    requires Shape(sfn, n, m)
    ensures var t, b := Text(sfn, n, m), Blanks();
            var mid := b[..0] + t[..n] + b[0 + n..];
            && |t| == (if m > 0 then n + 1 + m else n) && |mid| == 11 && t[..n] == sfn[..n] && AllGood(t[..n])
            && (m == 0 ==> mid == sfn && t[n..] == [])
            && (m > 0 ==> t[n] == 0x2E && AllGood(t[n + 1..][..m])
                          && mid[..8] + t[n + 1..][..m] + mid[8 + m..] == sfn)
  {
    var t, b := Text(sfn, n, m), Blanks();
    var mid := b[..0] + t[..n] + b[0 + n..];
    hide Good;
    if m > 0 {
      assert t[n + 1..] == sfn[8..8 + m];
      assert mid[..8] == sfn[..8] && mid[8 + m..] == sfn[8 + m..];
    } else {
      assert mid == sfn;
    }
  }

  /** The segment is a dot and nothing else. */
  predicate LoneDot(p: seq<byte>) { p != [] && p[0] == 0x2E && (|p| == 1 || Ends(p[1])) }

  /** The name of every accepted segment gives a text of at most twelve characters, and that text
      is accepted as the same name, except for a lone dot: its name is all blank and has no text. */
  lemma NameRoundTrip(p: seq<byte>)
    requires NameOf(p).Some?
    ensures |TextFrom(NameOf(p).value, 0)| <= 12
    ensures NameOf(TextFrom(NameOf(p).value, 0)) == NameOf(p) <==> !LoneDot(p)
  {
    var n, m := ScanShape(p, Blanks(), 0, 8, 0);
    var sfn := Scan(p, Blanks(), 0, 8).value.sfn;
    FirstCharacter(sfn, n, m);
    TextOfBody(sfn, n, m, 0);
    TextOfExtension(sfn, n, m, 8);
    BlankName(p, sfn);
    hide *;
    TextIs(sfn, n, m);
    NameSame(p, sfn);
    if n > 0 || m > 0 {
      ScanText(sfn, n, m);
      NameIs(p, sfn, n, m);
      NotBlank(sfn, n, m);
    } else {
      NoText(sfn);
    }
  }

  lemma NameSame(p: seq<byte>, sfn: seq<byte>)
    requires NameOf(p).Some? && Scan(p, Blanks(), 0, 8).Some? && Scan(p, Blanks(), 0, 8).value.sfn == sfn && |sfn| == 11
    requires sfn[0] != 0xE5
    ensures NameOf(p) == Some(sfn)
  {
  }

  lemma NotBlank(sfn: seq<byte>, n: nat, m: nat)
    requires Shape(sfn, n, m) && (n > 0 || m > 0)
    ensures sfn != Blanks()
  {
    assert if n > 0 then Good(sfn[0]) else Good(sfn[8]);
  }

  lemma NoText(sfn: seq<byte>)
    requires Shape(sfn, 0, 0)
    ensures sfn == Blanks() && Text(sfn, 0, 0) == [] && NameOf([]) == None
  {
  }

  /** An accepted segment has an all-blank name exactly if it is a lone dot. */
  lemma BlankName(p: seq<byte>, sfn: seq<byte>)
    requires NameOf(p).Some? && Scan(p, Blanks(), 0, 8) == Some(Scanned(sfn, Scan(p, Blanks(), 0, 8).value.i))
    ensures sfn == Blanks() <==> LoneDot(p)
  {
    if p[0] == 0x2E {
      if |p| > 1 && !Ends(p[1]) { StoresSome(p[1..], Blanks(), 8, 11); }
    } else {
      StoresSome(p, Blanks(), 0, 8);
    }
  }

  /** A scan that begins with a character to store ends with that character stored. */
  lemma StoresSome(p: seq<byte>, sfn: seq<byte>, i: nat, ni: nat)
    requires |sfn| == 11 && i < ni <= 11 && ((i == 0 && ni == 8) || (i == 8 && ni == 11)) && p != [] && !Ends(p[0])
    requires p[0] != 0x2E
    requires Scan(p, sfn, i, ni).Some?
    ensures Scan(p, sfn, i, ni).value.sfn != Blanks()
  {
    StoredTwice(p[0]);
    Keeps(p[1..], sfn[i := Stored(p[0])], i + 1, ni, i);
  }

  /** A stored character is not overwritten. */
  lemma {:induction false} Keeps(p: seq<byte>, sfn: seq<byte>, i: nat, ni: nat, k: nat)
    requires |sfn| == 11 && k < i <= ni <= 11 && (ni == 8 || ni == 11)
    ensures Scan(p, sfn, i, ni).Some? ==> Scan(p, sfn, i, ni).value.sfn[k] == sfn[k]
    decreases |p|
  {
    if p == [] || Ends(p[0]) {
    } else if p[0] == 0x2E || i >= ni {
      if ni == 8 && p[0] == 0x2E { Keeps(p[1..], sfn, 8, 11, k); }
    } else if !Illegal(if p[0] >= 0x80 then Upper(p[0]) else p[0]) {
      Keeps(p[1..], sfn[i := Stored(p[0])], i + 1, ni, k);
    }
  }

  lemma FirstCharacter(sfn: seq<byte>, n: nat, m: nat)
    requires Shape(sfn, n, m)
    ensures sfn[0] != 0xE5 && sfn[0] != 0x05 && (sfn != Blanks() ==> n > 0 || m > 0)
  {
  }

  lemma TextIs(sfn: seq<byte>, n: nat, m: nat)
    requires Shape(sfn, n, m)
    requires |sfn| == 11 && n <= 8 && m <= 3
    requires TextFrom(sfn, 0) == (if 0 >= n then [] else sfn[0..n]) + TextFrom(sfn, 8)
    requires TextFrom(sfn, 8) == if 8 >= 8 + m then [] else [0x2E] + sfn[8..8 + m]
    ensures TextFrom(sfn, 0) == Text(sfn, n, m) && |Text(sfn, n, m)| <= 12
  {
    assert n > 0 ==> sfn[0..n] == sfn[..n];
  }

  lemma NameIs(p: seq<byte>, sfn: seq<byte>, n: nat, m: nat)
    requires |sfn| == 11 && n <= 8 && m <= 3 && NameOf(p).Some? && Scan(p, Blanks(), 0, 8).Some?
    requires Scan(p, Blanks(), 0, 8).value.sfn == sfn
    requires sfn[0] != 0xE5 && (n > 0 || m > 0)
    requires Scan(Text(sfn, n, m), Blanks(), 0, 8) == Some(Scanned(sfn, if m > 0 then 8 + m else n))
    ensures NameOf(p) == Some(sfn) && NameOf(Text(sfn, n, m)) == Some(sfn)
  {
  }

  /** Every accepted name can be stored in a directory: it collides with neither mark. */
  lemma AcceptedIsStorable(p: seq<byte>)
    requires NameOf(p).Some?
    ensures FatDirState.Storable(NameOf(p).value)
  {
    var n, m := ScanShape(p, Blanks(), 0, 8, 0);
    var sfn := Scan(p, Blanks(), 0, 8).value.sfn;
    FirstCharacter(sfn, n, m);
    assert if n > 0 then Good(sfn[0]) else sfn[0] == 0x20;
  }

  // ---------- Which segments have the same name ----------

  /** No small letter is stored. */
  lemma NoSmallLetter(p: seq<byte>)
    requires NameOf(p).Some?
    ensures |NameOf(p).value| == 11 && forall k :: 0 <= k < 11 ==> !(0x61 <= NameOf(p).value[k] <= 0x7A)
  {
    var n, m := ScanShape(p, Blanks(), 0, 8, 0);
    var sfn := Scan(p, Blanks(), 0, 8).value.sfn;
    forall k | 0 <= k < 11 ensures !(0x61 <= sfn[k] <= 0x7A) { assert Good(sfn[k]) || sfn[k] == 0x20; }
  }

  /** The small and the capital form of a letter of code page 1251. */
  predicate Letter(small: byte, capital: byte) {
    || (0x61 <= small <= 0x7A && capital == small - 0x20)
    || (0xE0 <= small && capital == small - 0x20)
    || (small, capital) in {(0x83, 0x81), (0x90, 0x80), (0x9A, 0x8A), (0x9C, 0x8C), (0x9D, 0x8D), (0x9E, 0x8E),
                            (0x9F, 0x8F), (0xA2, 0xA1), (0xB3, 0xB2), (0xB4, 0xA5), (0xB8, 0xA8), (0xBA, 0xAA),
                            (0xBC, 0xA3), (0xBE, 0xBD), (0xBF, 0xAF)}
  }

  /** Both forms of every letter are stored alike, with one exception: 0x83 is stored as the quotation mark 0x82. */
  lemma LettersFold(small: byte, capital: byte)
    requires Letter(small, capital)
    ensures Stored(small) == Stored(capital) <==> small != 0x83
    ensures Stored(0x83) == 0x82
  {
  }

  /** The two characters are the same, or the two forms of a letter, which are stored alike. */
  predicate SameLetter(c: byte, d: byte) {
    c == d || (Letter(c, d) && c != 0x83) || (Letter(d, c) && d != 0x83)
  }

  ghost predicate SameLetters(p: seq<byte>, q: seq<byte>) {
    |p| == |q| && forall k :: 0 <= k < |p| ==> SameLetter(p[k], q[k])
  }

  lemma SameLetterIs(c: byte, d: byte)
    requires SameLetter(c, d)
    ensures Stored(c) == Stored(d) && Ends(c) == Ends(d) && (c == 0x2E <==> d == 0x2E)
    ensures Illegal(if c >= 0x80 then Upper(c) else c) == Illegal(if d >= 0x80 then Upper(d) else d)
  {
    if Letter(c, d) { LettersFold(c, d); }
    if Letter(d, c) { LettersFold(d, c); }
  }

  lemma SameLettersOn(p: seq<byte>, q: seq<byte>)
    requires SameLetters(p, q) && p != []
    ensures |q| == |p| && SameLetter(p[0], q[0]) && SameLetters(p[1..], q[1..])
  {
    hide SameLetter;
  }

  lemma {:induction false} ScanFolds(p: seq<byte>, q: seq<byte>, sfn: seq<byte>, i: nat, ni: nat)
    requires SameLetters(p, q) && |sfn| == 11 && i <= 11 && ni <= 11
    ensures Scan(p, sfn, i, ni) == Scan(q, sfn, i, ni)
    decreases |p|
  {
    if p != [] {
      SameLetterIs(p[0], q[0]);
      SameLettersOn(p, q);
      hide SameLetters, SameLetter, Stored, Ends, Illegal, Upper;
      if Ends(p[0]) {
      } else if p[0] == 0x2E || i >= ni {
        if ni == 8 && p[0] == 0x2E { ScanFolds(p[1..], q[1..], sfn, 8, 11); }
      } else {
        ScanFolds(p[1..], q[1..], sfn[i := Stored(p[0])], i + 1, ni);
      }
    }
  }

  /** Segments that differ in the case of letters only are accepted as the same name, or both refused. */
  lemma CaseIgnored(p: seq<byte>, q: seq<byte>)
    requires SameLetters(p, q)
    ensures NameOf(p) == NameOf(q)
  {
    ScanFolds(p, q, Blanks(), 0, 8);
    hide Scan;
  }

  /** The characters before the end of the segment. */
  function Segment(p: seq<byte>): (s: seq<byte>)
  {
    if p == [] || Ends(p[0]) then [] else [p[0]] + Segment(p[1..])
  }

  /** What separates the segments of a path. */
  ghost predicate Slash(c: byte) { c as int == '/' as int || c as int == '\\' as int }

  lemma {:induction false} SlashesEnd(path: seq<byte>) returns (k: nat)
    ensures k <= |path| && (forall j :: 0 <= j < k ==> Slash(path[j])) && (k < |path| ==> !Slash(path[k]))
    ensures Stripped(path) == path[k..]
  {
    if path != [] && Separator(path[0]) {
      var k1 := SlashesEnd(path[1..]);
      k := k1 + 1;
      forall j | 0 <= j < k ensures Slash(path[j]) { if j > 0 { assert path[1..][j - 1] == path[j]; } }
    } else {
      k := 0;
      assert path[0..] == path;
    }
  }

  lemma {:induction false} SegmentEnd(p: seq<byte>) returns (m: nat)
    ensures m <= |p| && (forall j :: 0 <= j < m ==> !Slash(p[j]) && p[j] as int > ' ' as int)
    ensures m < |p| ==> Slash(p[m]) || p[m] as int <= ' ' as int
    ensures Segment(p) == p[0..m]
  {
    if p == [] || Ends(p[0]) {
      m := 0;
    } else {
      var m1 := SegmentEnd(p[1..]);
      m := m1 + 1;
      forall j | 0 <= j < m ensures !Slash(p[j]) && p[j] as int > ' ' as int {
        if j > 0 { assert p[1..][j - 1] == p[j]; }
      }
      assert p[0..m] == [p[0]] + p[1..][0..m1];
    }
  }

  /** The segment that a path begins with: leading slashes are skipped, and it goes on up to the next slash, blank or
      control character. */
  lemma SegmentOf(path: seq<byte>) returns (k: nat, m: nat)
    ensures k <= m <= |path| && (forall j :: 0 <= j < k ==> Slash(path[j])) && (k < |path| ==> !Slash(path[k]))
    ensures forall j :: k <= j < m ==> !Slash(path[j]) && path[j] as int > ' ' as int
    ensures m < |path| ==> Slash(path[m]) || path[m] as int <= ' ' as int
    ensures Stripped(path) == path[k..] && Segment(Stripped(path)) == path[k..m]
  {
    hide *;
    k := SlashesEnd(path);
    var m1 := SegmentEnd(path[k..]);
    m := k + m1;
    assert path[k..][0..m1] == path[k..m];
    forall j | k <= j < m ensures !Slash(path[j]) && path[j] as int > ' ' as int {
      assert path[k..][j - k] == path[j];
    }
  }

  /** The characters as they are stored. */
  function Capitals(s: seq<byte>): (r: seq<byte>)
    ensures |r| == |s| && forall k :: 0 <= k < |s| ==> r[k] == Stored(s[k])
  {
    seq(|s|, k requires 0 <= k < |s| => Stored(s[k]))
  }

  /** Without a dot at the end. */
  function Trimmed(s: seq<byte>): seq<byte> {
    if s != [] && s[|s| - 1] == 0x2E then s[..|s| - 1] else s
  }

  /** What has been scanned, with its dot. */
  ghost function Dotted(sfn: seq<byte>, i: nat, ni: nat, n: nat): seq<byte>
    requires |sfn| == 11 && n <= 8
  {
    if ni == 11 && 8 <= i <= 11 then sfn[..n] + [0x2E] + sfn[8..i] else sfn[..n]
  }

  ghost predicate At(sfn: seq<byte>, i: nat, ni: nat, n: nat) {
    |sfn| == 11 && ((ni == 8 && i == n && Shape(sfn, n, 0)) || (ni == 11 && 8 <= i <= 11 && Shape(sfn, n, i - 8)))
  }

  lemma SegmentNext(p: seq<byte>)
    requires p != [] && !Ends(p[0])
    ensures Capitals(Segment(p)) == [Stored(p[0])] + Capitals(Segment(p[1..]))
  {
  }

  /** The scan adds the characters as they are stored. */
  lemma {:induction false} ScanAdds(p: seq<byte>, sfn: seq<byte>, i: nat, ni: nat, n: nat) returns (ni': nat, n': nat)
    requires At(sfn, i, ni, n)
    ensures var r := Scan(p, sfn, i, ni);
            r.Some? ==>
              && At(r.value.sfn, r.value.i, ni', n')
              && Dotted(r.value.sfn, r.value.i, ni', n') == Dotted(sfn, i, ni, n) + Capitals(Segment(p))
    decreases |p|
  {
    ni', n' := ni, n;
    var d := Dotted(sfn, i, ni, n);
    if p == [] || Ends(p[0]) {
      assert d + Capitals([]) == d;
    } else if p[0] == 0x2E || i >= ni {
      if ni == 8 && p[0] == 0x2E {
        SegmentNext(p);
        DotAdded(sfn, n);
        ni', n' := ScanAdds(p[1..], sfn, 8, 11, n);
        assert d + ([0x2E] + Capitals(Segment(p[1..]))) == d + [0x2E] + Capitals(Segment(p[1..]));
      }
    } else if !Illegal(if p[0] >= 0x80 then Upper(p[0]) else p[0]) {
      StoredTwice(p[0]);
      SegmentNext(p);
      var c := Stored(p[0]);
      CharacterAdded(sfn, i, ni, n, c);
      ni', n' := ScanAdds(p[1..], sfn[i := c], i + 1, ni, if ni == 8 then n + 1 else n);
      assert d + ([c] + Capitals(Segment(p[1..]))) == d + [c] + Capitals(Segment(p[1..]));
    }
  }

  lemma DotAdded(sfn: seq<byte>, n: nat)
    requires At(sfn, n, 8, n)
    ensures At(sfn, 8, 11, n) && Dotted(sfn, 8, 11, n) == Dotted(sfn, n, 8, n) + [0x2E]
  {
    hide Good;
  }

  lemma CharacterAdded(sfn: seq<byte>, i: nat, ni: nat, n: nat, c: byte)
    requires At(sfn, i, ni, n) && i < ni && Good(c)
    ensures var n' := if ni == 8 then n + 1 else n;
            At(sfn[i := c], i + 1, ni, n') && Dotted(sfn[i := c], i + 1, ni, n') == Dotted(sfn, i, ni, n) + [c]
  {
    hide Good;
  }

  /** The text of a name is what was scanned, without a dot at the end. */
  lemma TrimmedText(sfn: seq<byte>, i: nat, ni: nat, n: nat)
    requires At(sfn, i, ni, n)
    ensures var m := if ni == 8 then 0 else i - 8; m <= 3 && Text(sfn, n, m) == Trimmed(Dotted(sfn, i, ni, n))
  {
    assert n > 0 ==> Good(sfn[n - 1]);
    assert i > 8 ==> Good(sfn[i - 1]);
  }

  lemma ScanStarts(b: seq<byte>)
    requires b == Blanks()
    ensures At(b, 0, 8, 0) && Dotted(b, 0, 8, 0) == []
  {
  }

  lemma NameScans(p: seq<byte>)
    requires NameOf(p).Some?
    ensures Scan(p, Blanks(), 0, 8).Some?
  {
  }

  lemma AtIs(sfn: seq<byte>, i: nat, ni: nat, n: nat)
    requires At(sfn, i, ni, n)
    ensures |sfn| == 11 && n <= 8 && (ni != 8 ==> 8 <= i <= 11) && Shape(sfn, n, if ni == 8 then 0 else i - 8)
  {
    hide Good;
  }

  /** The text of the name is the segment in capitals, without a dot at the end. */
  lemma TextIsCapitals(p: seq<byte>)
    requires NameOf(p).Some?
    ensures TextFrom(NameOf(p).value, 0) == Trimmed(Capitals(Segment(p)))
  {
    hide *;
    var b := Blanks();
    ScanStarts(b);
    var ni, n := ScanAdds(p, b, 0, 8, 0);
    NameScans(p);
    var sfn, i := Scan(p, b, 0, 8).value.sfn, Scan(p, b, 0, 8).value.i;
    var m := if ni == 8 then 0 else i - 8;
    AtIs(sfn, i, ni, n);
    assert [] + Capitals(Segment(p)) == Capitals(Segment(p));
    TrimmedText(sfn, i, ni, n);
    TextOfBody(sfn, n, m, 0);
    TextOfExtension(sfn, n, m, 8);
    FirstCharacter(sfn, n, m);
    TextIs(sfn, n, m);
    NameSame(p, sfn);
  }

  lemma PlainLetters(c: byte, d: byte)
    requires c < 0x80 && d < 0x80 && Stored(c) == Stored(d)
    ensures SameLetter(c, d)
  {
  }

  lemma TrimmedCapitals(s: seq<byte>)
    requires forall k :: 0 <= k < |s| ==> s[k] < 0x80
    ensures Trimmed(Capitals(s)) == Capitals(Trimmed(s))
  {
    assert s != [] ==> (Stored(s[|s| - 1]) == 0x2E <==> s[|s| - 1] == 0x2E);
  }

  /** Accepted segments without extended characters have the same name only if they differ in the case of letters
      and in a dot at the end at most. */
  lemma SameNameOnlyIf(p: seq<byte>, q: seq<byte>)
    requires NameOf(p).Some? && NameOf(q) == NameOf(p)
    requires forall k :: 0 <= k < |Segment(p)| ==> Segment(p)[k] < 0x80
    requires forall k :: 0 <= k < |Segment(q)| ==> Segment(q)[k] < 0x80
    ensures SameLetters(Trimmed(Segment(p)), Trimmed(Segment(q)))
  {
    var s, u := Segment(p), Segment(q);
    TextIsCapitals(p);
    TextIsCapitals(q);
    TrimmedCapitals(s);
    TrimmedCapitals(u);
    assert Capitals(Trimmed(s)) == Capitals(Trimmed(u));
    hide Segment, NameOf, TextFrom, SameLetter, Stored;
    forall k | 0 <= k < |Trimmed(s)| ensures SameLetter(Trimmed(s)[k], Trimmed(u)[k]) {
      assert Capitals(Trimmed(s))[k] == Capitals(Trimmed(u))[k];
      PlainLetters(Trimmed(s)[k], Trimmed(u)[k]);
    }
  }

  /** Two accepted segments have the same name exactly if they are the same in capitals, up to a dot at the end. */
  lemma SameName(p: seq<byte>, q: seq<byte>)
    requires NameOf(p).Some? && NameOf(q).Some?
    ensures NameOf(p) == NameOf(q) <==> Trimmed(Capitals(Segment(p))) == Trimmed(Capitals(Segment(q)))
  {
    hide *;
    TextIsCapitals(p);
    TextIsCapitals(q);
    NameRoundTrip(p);
    NameRoundTrip(q);
    DotHasNoText(p);
    DotHasNoText(q);
  }

  lemma DotHasNoText(p: seq<byte>)
    requires NameOf(p).Some?
    ensures NameOf([]) == None && (LoneDot(p) ==> NameOf(p).value == Blanks() && TextFrom(NameOf(p).value, 0) == [])
  {
    TextIsCapitals(p);
    var n, m := ScanShape(p, Blanks(), 0, 8, 0);
    var sfn := Scan(p, Blanks(), 0, 8).value.sfn;
    BlankName(p, sfn);
    hide TextFrom, Scan;
    if LoneDot(p) { assert Segment(p) == [0x2E]; }
  }

  // ---------- Which segments are accepted ----------

  /** The characters that the standard forbids in short names. */
  predicate Forbidden(c: byte) {
    c == 0x7F || exists ch :: ch in "\"*+,:;<=>?[]|" && ch as int == c
  }

  lemma ForbiddenIs(c: byte)
    ensures Forbidden(c) <==> Illegal(if c >= 0x80 then Upper(c) else c)
  {
    var s := "\"*+,:;<=>?[]|";
    if c < 0x80 && Illegal(c) && c != 0x7F {
      assert s[0] as int == 0x22 && s[1] as int == 0x2A && s[2] as int == 0x2B && s[3] as int == 0x2C;
      assert s[4] as int == 0x3A && s[5] as int == 0x3B && s[6] as int == 0x3C && s[7] as int == 0x3D;
      assert s[8] as int == 0x3E && s[9] as int == 0x3F && s[10] as int == 0x5B && s[11] as int == 0x5D;
      assert s[12] as int == 0x7C;
      assert c as char in s;
    }
  }

  /** The place of the first dot, or the length if there is none. */
  function DotAt(s: seq<byte>): (d: nat)
    ensures d <= |s| && (d < |s| ==> s[d] == 0x2E) && forall k :: 0 <= k < d ==> s[k] != 0x2E
  {
    if s == [] || s[0] == 0x2E then 0 else 1 + DotAt(s[1..])
  }

  /** No dot and no forbidden character in it. */
  ghost predicate Clean(s: seq<byte>) { forall k :: 0 <= k < |s| ==> s[k] != 0x2E && !Forbidden(s[k]) }

  /** At most `room` characters, and behind a dot at most three more. */
  ghost predicate ShortForm(s: seq<byte>, room: nat) {
    var d := DotAt(s);
    && d <= room && Clean(s[..d])
    && (d < |s| ==> |s| - d - 1 <= 3 && Clean(s[d + 1..]))
  }

  lemma CleanNext(s: seq<byte>)
    requires s != []
    ensures Clean(s) <==> s[0] != 0x2E && !Forbidden(s[0]) && Clean(s[1..])
  {
    hide Forbidden;
    if s[0] != 0x2E && !Forbidden(s[0]) && Clean(s[1..]) {
      forall k | 0 <= k < |s| ensures s[k] != 0x2E && !Forbidden(s[k]) {
        if k > 0 { assert s[1..][k - 1] == s[k]; }
      }
    }
  }

  lemma SegmentIs(p: seq<byte>)
    requires p != []
    ensures Segment(p) == if Ends(p[0]) then [] else [p[0]] + Segment(p[1..])
    ensures !Ends(p[0]) ==> Segment(p) != [] && Segment(p)[0] == p[0] && Segment(p)[1..] == Segment(p[1..])
  {
  }

  /** Behind the dot. */
  lemma {:induction false} ScanExtension(p: seq<byte>, sfn: seq<byte>, i: nat)
    requires |sfn| == 11 && 8 <= i <= 11
    ensures Scan(p, sfn, i, 11).Some? <==> i + |Segment(p)| <= 11 && Clean(Segment(p))
    ensures Scan(p, sfn, i, 11).Some? ==> Scan(p, sfn, i, 11).value.i == i + |Segment(p)|
    decreases |p|
  {
    if p != [] {
      SegmentIs(p);
      ForbiddenIs(p[0]);
      if !Ends(p[0]) { CleanNext(Segment(p)); }
      hide Segment, Clean, Forbidden, Stored, Illegal, Ends;
      if !Ends(p[0]) && p[0] != 0x2E && i < 11 && !Forbidden(p[0]) {
        ScanExtension(p[1..], sfn[i := Stored(p[0])], i + 1);
      }
    }
  }

  lemma ShortFormNext(s: seq<byte>, room: nat)
    requires s != [] && s[0] != 0x2E
    ensures ShortForm(s, room) <==> room > 0 && !Forbidden(s[0]) && ShortForm(s[1..], room - 1)
  {
    var d := DotAt(s);
    assert d == 1 + DotAt(s[1..]) && s[..d][0] == s[0] && s[..d][1..] == s[1..][..d - 1];
    assert d < |s| ==> s[1..][d - 1 + 1..] == s[d + 1..];
    CleanNext(s[..d]);
    hide Clean, Forbidden;
  }

  lemma ShortFormDot(s: seq<byte>, room: nat)
    requires s != [] && s[0] == 0x2E
    ensures ShortForm(s, room) <==> |s| <= 4 && Clean(s[1..])
  {
    hide Forbidden;
  }

  lemma {:induction false} ScanBody(p: seq<byte>, sfn: seq<byte>, i: nat)
    requires |sfn| == 11 && i <= 8
    ensures Scan(p, sfn, i, 8).Some? <==> ShortForm(Segment(p), 8 - i)
    ensures Scan(p, sfn, i, 8).Some? ==> (Scan(p, sfn, i, 8).value.i == 0 <==> i == 0 && Segment(p) == [])
    decreases |p|
  {
    if p != [] {
      SegmentIs(p);
      ForbiddenIs(p[0]);
      if Ends(p[0]) {
      } else if p[0] == 0x2E {
        ShortFormDot(Segment(p), 8 - i);
        ScanExtension(p[1..], sfn, 8);
      } else {
        ShortFormNext(Segment(p), 8 - i);
        hide Segment, ShortForm, Forbidden, Stored, Illegal, Ends;
        if i < 8 && !Forbidden(p[0]) { ScanBody(p[1..], sfn[i := Stored(p[0])], i + 1); }
      }
    }
  }

  /** A segment is accepted exactly if it is not empty, has at most eight characters before its dot and three behind
      it, no other dot and no forbidden character. */
  lemma AcceptedWhen(p: seq<byte>)
    ensures NameOf(p).Some? <==> Segment(p) != [] && ShortForm(Segment(p), 8)
  {
    ScanBody(p, Blanks(), 0);
    hide Segment, ShortForm, Scan;
  }
}
