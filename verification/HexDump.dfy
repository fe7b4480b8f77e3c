/** FLog_log_hex: a hex dump written row by row through one reused buffer. */
module HexDump {
  import opened NetUtil

  const SPACE: Byte := 32
  const DOT: Byte := 46
  const ZERO: Byte := 48
  const OPEN: Byte := 91
  const CLOSE: Byte := 93
  const BAR: Byte := 124

  function HexDigit(n: nat): (c: Byte)
    requires n < 16
  {
    if n < 10 then 48 + n else 55 + n
  }

  // The value of a hex digit as the dump writes it; None for any other character.
  function HexValue(c: Byte): (v: int)
    ensures -1 <= v < 16
  {
    if 48 <= c <= 57 then c - 48 else if 65 <= c <= 70 then c - 55 else -1
  }

  // isgraph in the C locale; a byte with the top bit set is never graphic.
  predicate IsGraph(c: Byte) {
    33 <= c <= 126
  }

  function Shown(c: Byte): Byte {
    if IsGraph(c) then c else DOT
  }

  // The column of the first hex digit of byte j of a row.
  function Col(j: nat): nat {
    8 + 3 * j + j / 4
  }

  const ROW := 78

  // What row number i must look like for a chunk of at most 16 bytes.
  ghost predicate IsRow(row: seq<Byte>, i: nat, chunk: seq<Byte>)
    requires i < 0x1_0000 && |chunk| <= 16
  {
    && |row| == ROW && Frame(row)
    && row[1] == HexDigit(i / 0x1000) && row[2] == HexDigit(i / 0x100 % 16)
    && row[3] == HexDigit(i / 0x10 % 16) && row[4] == HexDigit(i % 16)
    && (forall j :: 0 <= j < |chunk| ==> Shows(row, j, chunk[j]))
    && (forall j :: |chunk| <= j < 16 ==> Blank(row, j))
  }

  // The characters every row shares.
  ghost predicate Frame(row: seq<Byte>)
    requires |row| >= ROW
  {
    && row[0] == OPEN && row[5] == ZERO && row[6] == CLOSE
    && row[7] == SPACE && row[20] == SPACE && row[33] == SPACE && row[46] == SPACE
    && (forall j :: 0 <= j < 16 ==> row[Col(j) + 2] == SPACE)
    && row[59] == SPACE && row[60] == BAR && row[77] == BAR
  }

  ghost predicate Shows(row: seq<Byte>, j: nat, b: Byte)
    requires |row| >= ROW && j < 16
  {
    row[Col(j)] == HexDigit(b / 16) && row[Col(j) + 1] == HexDigit(b % 16) && row[61 + j] == Shown(b)
  }

  ghost predicate Blank(row: seq<Byte>, j: nat)
    requires |row| >= ROW && j < 16
  {
    row[Col(j)] == SPACE && row[Col(j) + 1] == SPACE && row[61 + j] == SPACE
  }

  // Reading a row back: the bytes of its hex columns from byte j on, up to the first column that is not hex.
  function Decode(row: seq<Byte>, j: nat): seq<Byte>
    requires |row| == ROW && j <= 16
    decreases 16 - j
  {
    if j == 16 || HexValue(row[Col(j)]) < 0 || HexValue(row[Col(j) + 1]) < 0 then []
    else [16 * HexValue(row[Col(j)]) + HexValue(row[Col(j) + 1])] + Decode(row, j + 1)
  }

  lemma {:induction false} DecodeRow(row: seq<Byte>, i: nat, chunk: seq<Byte>, j: nat)
    requires i < 0x1_0000 && |chunk| <= 16 && IsRow(row, i, chunk) && j <= |chunk|
    ensures Decode(row, j) == chunk[j..]
    decreases 16 - j
  {
    if j < |chunk| {
      assert Shows(row, j, chunk[j]);
      DecodeRow(row, i, chunk, j + 1);
      assert chunk[j..] == [chunk[j]] + chunk[j + 1..];
    } else if j < 16 {
      assert Blank(row, j);
    }
  }

  // No character of a row is NUL, so the row prints in full.
  lemma RowHasNoNul(row: seq<Byte>, i: nat, chunk: seq<Byte>, c: nat)
    requires i < 0x1_0000 && |chunk| <= 16 && IsRow(row, i, chunk) && c < ROW
    ensures row[c] != 0
  {
    if 8 <= c < 59 {
      var g := (c - 8) / 13;
      var j := 4 * g + (c - 8) % 13 / 3;
      if (c - 8) % 13 < 12 {
        assert Col(j) <= c <= Col(j) + 2;
        if j < |chunk| { assert Shows(row, j, chunk[j]); } else { assert Blank(row, j); }
      }
    } else if 61 <= c < 77 {
      var j := c - 61;
      if j < |chunk| { assert Shows(row, j, chunk[j]); } else { assert Blank(row, j); }
    }
  }

  // The string a char buffer holds: everything up to the first NUL.
  function CString(s: seq<Byte>): seq<Byte> {
    if s == [] || s[0] == 0 then [] else [s[0]] + CString(s[1..])
  }

  lemma {:induction false} CStringUpTo(s: seq<Byte>, n: nat)
    requires n < |s| && s[n] == 0 && forall c :: 0 <= c < n ==> s[c] != 0
    ensures CString(s) == s[..n]
    decreases n
  {
    if n > 0 {
      CStringUpTo(s[1..], n - 1);
      assert s[..n] == [s[0]] + s[1..][..n - 1];
    }
  }

  // Byte columns neither meet each other nor the separators.
  lemma ColsApart(i: nat, j: nat)
    requires i < j < 16
    ensures Col(i) + 2 < Col(j) <= 56
  {
  }

  // Buffer b holds the start of the row for chunk, up to byte n of it.
  ghost predicate Filled(b: seq<Byte>, chunk: seq<Byte>, n: nat)
    requires |b| >= ROW && n <= |chunk| <= 16
  {
    forall j :: 0 <= j < n ==> Shows(b, j, chunk[j])
  }

  // The columns a row fill leaves alone: brackets, row number, separators, bars and what lies beyond the row.
  predicate Fixed(c: nat) {
    c < 8 || 59 <= c < 61 || 77 <= c || (c < 59 && ((c - 8) % 13 == 12 || (c - 8) % 13 % 3 == 2))
  }

  ghost predicate SameFixed(a: seq<Byte>, b: seq<Byte>)
    requires |a| == |b| == 128
  {
    forall c: nat :: c < 128 && Fixed(c) ==> a[c] == b[c]
  }

  lemma ColsFill(j: nat)
    requires j < 16
    ensures 8 <= Col(j) <= 56 && !Fixed(Col(j)) && !Fixed(Col(j) + 1) && !Fixed(61 + j) && Fixed(Col(j) + 2)
  {
    var g, r := j / 4, j % 4;
    assert Col(j) == 8 + (13 * g + 3 * r);
    InGroup(g, 3 * r);
    InGroup(g, 3 * r + 1);
    InGroup(g, 3 * r + 2);
  }

  lemma InGroup(g: nat, o: nat)
    requires o < 13
    ensures (13 * g + o) % 13 == o
  {
  }

  lemma SameFrame(a: seq<Byte>, b: seq<Byte>)
    requires |a| == |b| == 128 && SameFixed(a, b) && Frame(a)
    ensures Frame(b) && a[1..5] == b[1..5] && a[78..] == b[78..]
  {
    forall j | 0 <= j < 16 ensures b[Col(j) + 2] == SPACE {
      ColsFill(j);
      assert a[Col(j) + 2] == b[Col(j) + 2];
    }
    assert forall c: nat :: c in {0, 5, 6, 7, 20, 33, 46, 59, 60, 77} ==> a[c] == b[c];
  }

  method PutHex(msg: array<Byte>, k0: nat, j: nat, b: Byte) returns (k: nat)
    requires msg.Length == 128 && j < 16 && k0 == 7 + 3 * j + (j + 3) / 4
    modifies msg
    ensures k == 7 + 3 * (j + 1) + (j + 4) / 4
    ensures msg[..] == old(msg[..])[Col(j) := HexDigit(b / 16)][Col(j) + 1 := HexDigit(b % 16)]
  {
    k := k0;
    if j % 4 == 0 {
      k := k + 1;
    }
    msg[k] := HexDigit(b / 16);
    k := k + 1;
    msg[k] := HexDigit(b % 16);
    k := k + 1;
    k := k + 1;
  }

  // Storing byte j keeps the bytes before it in place.
  lemma FilledOn(a: seq<Byte>, b: seq<Byte>, chunk: seq<Byte>, n: nat)
    requires |a| == |b| == 128 && n < |chunk| <= 16 && Filled(a, chunk, n)
    requires forall c: nat :: c < 128 && c != Col(n) && c != Col(n) + 1 && c != 61 + n ==> a[c] == b[c]
    requires Shows(b, n, chunk[n])
    ensures Filled(b, chunk, n + 1)
  {
    forall j | 0 <= j < n ensures Shows(b, j, chunk[j]) {
      ColsApart(j, n);
      assert Shows(a, j, chunk[j]);
    }
  }

  // The body of the dump for one row's bytes: copy them to the right, then write each in hex, hiding what does not
  // print.
  method PutChunk(msg: array<Byte>, chunk: seq<Byte>) returns (k: nat)
    requires msg.Length == 128 && |chunk| <= 16
    modifies msg
    ensures Filled(msg[..], chunk, |chunk|) && SameFixed(old(msg[..]), msg[..])
    ensures k == 7 + 3 * |chunk| + (|chunk| + 3) / 4
  {
    for j := 0 to |chunk|
      invariant forall c: nat :: c < 128 && !(61 <= c < 61 + j) ==> msg[c] == old(msg[c])
      invariant forall c: nat :: c < j ==> msg[61 + c] == chunk[c]
    {
      msg[61 + j] := chunk[j];
    }
    k := 7;
    for j := 0 to |chunk|
      invariant k == 7 + 3 * j + (j + 3) / 4
      invariant Filled(msg[..], chunk, j) && SameFixed(old(msg[..]), msg[..])
      invariant forall c: nat :: j <= c < |chunk| ==> msg[61 + c] == chunk[c]
    {
      ghost var before := msg[..];
      ColsFill(j);
      k := PutHex(msg, k, j, chunk[j]);
      if !IsGraph(msg[61 + j]) {
        msg[61 + j] := DOT;
      }
      FilledOn(before, msg[..], chunk, j);
    }
  }

  // The rest of the last row: spaces instead of hex, spaces instead of text.
  method PutBlanks(msg: array<Byte>, k0: nat, n: nat, ghost chunk: seq<Byte>)
    requires msg.Length == 128 && n == |chunk| <= 16 && k0 == 7 + 3 * n + (n + 3) / 4 && Filled(msg[..], chunk, n)
    modifies msg
    ensures Filled(msg[..], chunk, n) && SameFixed(old(msg[..]), msg[..])
    ensures forall j :: n <= j < 16 ==> Blank(msg[..], j)
  {
    var k := k0;
    for j := n to 16
      invariant k == 7 + 3 * j + (j + 3) / 4
      invariant Filled(msg[..], chunk, n) && SameFixed(old(msg[..]), msg[..])
      invariant forall i :: n <= i < j ==> Blank(msg[..], i)
    {
      ghost var before := msg[..];
      ColsFill(j);
      if j % 4 == 0 {
        k := k + 1;
      }
      msg[k] := SPACE;
      k := k + 1;
      msg[k] := SPACE;
      k := k + 1;
      k := k + 1;
      msg[61 + j] := SPACE;
      BlankOn(before, msg[..], chunk, n, j);
    }
  }

  lemma BlankOn(a: seq<Byte>, b: seq<Byte>, chunk: seq<Byte>, n: nat, j: nat)
    requires |a| == |b| == 128 && n == |chunk| <= j < 16 && Filled(a, chunk, n)
    requires forall i :: n <= i < j ==> Blank(a, i)
    requires forall c: nat :: c < 128 && c != Col(j) && c != Col(j) + 1 && c != 61 + j ==> a[c] == b[c]
    requires Blank(b, j)
    ensures Filled(b, chunk, n) && forall i :: n <= i < j + 1 ==> Blank(b, i)
  {
    forall i | 0 <= i < n ensures Shows(b, i, chunk[i]) {
      ColsApart(i, j);
      assert Shows(a, i, chunk[i]);
    }
    forall i | n <= i < j ensures Blank(b, i) {
      ColsApart(i, j);
      assert Blank(a, i);
    }
  }

  method PutNumber(msg: array<Byte>, i: nat)
    requires msg.Length == 128 && i < 0x1_0000
    modifies msg
    ensures msg[..] == old(msg[..])[1 := HexDigit(i / 0x1000)][2 := HexDigit(i / 0x100 % 16)]
                                   [3 := HexDigit(i / 0x10 % 16)][4 := HexDigit(i % 16)]
  {
    msg[1] := HexDigit(i / 0x1000);
    msg[2] := HexDigit(i / 0x100 % 16);
    msg[3] := HexDigit(i / 0x10 % 16);
    msg[4] := HexDigit(i % 16);
  }

  // The buffer before the first row.
  method MakeFrame() returns (msg: array<Byte>)
    ensures fresh(msg) && msg.Length == 128 && Frame(msg[..]) && msg[78] == 0
  {
    msg := new Byte[128](_ => 0);
    msg[0] := OPEN;
    msg[5] := ZERO;
    msg[6] := CLOSE;
    msg[59] := SPACE;
    msg[60] := BAR;
    msg[77] := BAR;
    var k := 6;
    for j := 0 to 16
      invariant k == 6 + 3 * j + (j + 3) / 4
      invariant msg[0] == OPEN && msg[5] == ZERO && msg[6] == CLOSE && msg[59] == SPACE && msg[60] == BAR
      invariant msg[77] == BAR && msg[78] == 0
      invariant forall i :: 0 <= i < j ==> msg[Col(i) + 2] == SPACE && (i % 4 == 0 ==> msg[Col(i) - 1] == SPACE)
    {
      if j % 4 == 0 {
        k := k + 1;
        msg[k] := SPACE;
      }
      k := k + 3;
      msg[k] := SPACE;
    }
    assert msg[Col(0) - 1] == SPACE && msg[Col(4) - 1] == SPACE;
    assert msg[Col(8) - 1] == SPACE && msg[Col(12) - 1] == SPACE;
  }

  ghost predicate Numbered(b: seq<Byte>, i: nat)
    requires |b| >= ROW && i < 0x1_0000
  {
    && b[1] == HexDigit(i / 0x1000) && b[2] == HexDigit(i / 0x100 % 16)
    && b[3] == HexDigit(i / 0x10 % 16) && b[4] == HexDigit(i % 16)
  }

  // A buffer with its frame, number, bytes and blanks in place prints as the row wanted.
  lemma BufferPrints(b: seq<Byte>, i: nat, chunk: seq<Byte>)
    requires |b| == 128 && i < 0x1_0000 && |chunk| <= 16 && b[78] == 0
    requires Frame(b) && Numbered(b, i) && Filled(b, chunk, |chunk|)
    requires forall j :: |chunk| <= j < 16 ==> Blank(b, j)
    ensures IsRow(CString(b), i, chunk)
  {
    var row := b[..ROW];
    forall j | 0 <= j < |chunk| ensures Shows(row, j, chunk[j]) {
      assert Shows(b, j, chunk[j]);
    }
    forall j | |chunk| <= j < 16 ensures Blank(row, j) {
      assert Blank(b, j);
    }
    assert IsRow(row, i, chunk);
    forall c | 0 <= c < ROW ensures b[c] != 0 {
      RowHasNoNul(row, i, chunk, c);
    }
    CStringUpTo(b, ROW);
  }

  // The rows a dump of data consists of: one for each 16 bytes, and a last one for what is left, if only blanks.
  ghost predicate IsDump(rows: seq<seq<Byte>>, data: seq<Byte>)
    requires |data| < 0x10_0000
  {
    && |rows| == |data| / 16 + 1
    && (forall r :: 0 <= r < |data| / 16 ==> IsRow(rows[r], r, data[16 * r..16 * r + 16]))
    && IsRow(rows[|data| / 16], |data| / 16, data[16 * (|data| / 16)..])
  }

  method FillRow(msg: array<Byte>, i: nat, chunk: seq<Byte>) returns (k: nat)
    requires msg.Length == 128 && i < 0x1_0000 && |chunk| <= 16 && Frame(msg[..]) && msg[78] == 0
    modifies msg
    ensures Frame(msg[..]) && Numbered(msg[..], i) && Filled(msg[..], chunk, |chunk|) && msg[78] == 0
    ensures k == 7 + 3 * |chunk| + (|chunk| + 3) / 4
  {
    ghost var a := msg[..];
    PutNumber(msg, i);
    ghost var b := msg[..];
    forall j | 0 <= j < 16 ensures b[Col(j) + 2] == SPACE {
      ColsFill(j);
      assert a[Col(j) + 2] == SPACE;
    }
    k := PutChunk(msg, chunk);
    SameFrame(b, msg[..]);
    assert msg[..][1..5] == b[1..5] && msg[..][78..] == b[78..];
    assert msg[..][1..5][0] == b[1] && msg[..][1..5][1] == b[2] && msg[..][1..5][2] == b[3] && msg[..][1..5][3] == b[4];
    assert msg[..][78..][0] == b[78];
  }

  // FLog_log_hex, given whether the log takes hex dumps at this level at all; rows are the strings printed.
  method LogHex(enabled: bool, data: seq<Byte>) returns (ret: int, rows: seq<seq<Byte>>)
    requires |data| < 0x10_0000
    ensures if enabled then ret == 0 && IsDump(rows, data) else ret == -1 && rows == []
  {
    rows := [];
    if !enabled {
      return -1, [];
    }
    var msg := MakeFrame();
    var i := 0;
    while i < |data| / 16
      invariant i <= |data| / 16 && |rows| == i && Frame(msg[..]) && msg[78] == 0
      invariant forall r :: 0 <= r < i ==> IsRow(rows[r], r, data[16 * r..16 * r + 16])
    {
      var k := FillRow(msg, i, data[16 * i..16 * i + 16]);
      BufferPrints(msg[..], i, data[16 * i..16 * i + 16]);
      rows := rows + [CString(msg[..])];
      i := i + 1;
    }
    var chunk := data[16 * i..];
    var k := FillRow(msg, i, chunk);
    ghost var b := msg[..];
    PutBlanks(msg, k, |chunk|, chunk);
    SameFrame(b, msg[..]);
    assert msg[..][1..5][0] == b[1] && msg[..][1..5][1] == b[2] && msg[..][1..5][2] == b[3] && msg[..][1..5][3] == b[4];
    assert msg[..][78..][0] == b[78];
    BufferPrints(msg[..], i, chunk);
    rows := rows + [CString(msg[..])];
    ret := 0;
  }

  function DecodeAll(rows: seq<seq<Byte>>): seq<Byte>
    requires forall r :: 0 <= r < |rows| ==> |rows[r]| == ROW
  {
    if rows == [] then [] else Decode(rows[0], 0) + DecodeAll(rows[1..])
  }

  lemma {:induction false} DecodeFrom(rows: seq<seq<Byte>>, data: seq<Byte>, r: nat)
    requires |data| < 0x10_0000 && IsDump(rows, data) && r <= |data| / 16
    requires forall i :: 0 <= i < |rows| ==> |rows[i]| == ROW
    ensures DecodeAll(rows[r..]) == data[16 * r..]
    decreases |data| / 16 - r
  {
    var n := |data| / 16;
    assert rows[r..][0] == rows[r] && rows[r..][1..] == rows[r + 1..];
    if r == n {
      DecodeRow(rows[n], n, data[16 * n..], 0);
      assert rows[r + 1..] == [];
    } else {
      DecodeRow(rows[r], r, data[16 * r..16 * r + 16], 0);
      DecodeFrom(rows, data, r + 1);
      assert data[16 * r..] == data[16 * r..16 * r + 16] + data[16 * (r + 1)..];
    }
  }

  lemma WholeRow(row: seq<Byte>, i: nat, chunk: seq<Byte>)
    requires i < 0x1_0000 && |chunk| <= 16 && IsRow(row, i, chunk)
    ensures |row| == ROW && forall c :: 0 <= c < ROW ==> row[c] != 0
  {
    forall c | 0 <= c < ROW ensures row[c] != 0 {
      RowHasNoNul(row, i, chunk, c);
    }
  }

  // The hex columns of the rows, read in order, give the data back, and every row is 78 characters without a NUL.
  lemma DumpDecodes(rows: seq<seq<Byte>>, data: seq<Byte>)
    requires |data| < 0x10_0000 && IsDump(rows, data)
    ensures forall r :: 0 <= r < |rows| ==> |rows[r]| == ROW && forall c :: 0 <= c < ROW ==> rows[r][c] != 0
    ensures DecodeAll(rows) == data
  {
    forall r | 0 <= r < |rows| ensures |rows[r]| == ROW && forall c :: 0 <= c < ROW ==> rows[r][c] != 0 {
      if r < |data| / 16 {
        WholeRow(rows[r], r, data[16 * r..16 * r + 16]);
      } else {
        WholeRow(rows[r], r, data[16 * r..]);
      }
    }
    DecodeFrom(rows, data, 0);
    assert rows[0..] == rows && data[0..] == data;
  }

  // Nothing is left open: number and bytes determine every character of a row, so no earlier row shows through.
  lemma RowUnique(a: seq<Byte>, b: seq<Byte>, i: nat, chunk: seq<Byte>)
    requires i < 0x1_0000 && |chunk| <= 16 && IsRow(a, i, chunk) && IsRow(b, i, chunk)
    ensures a == b
  {
    forall c | 0 <= c < ROW ensures a[c] == b[c] {
      SameColumn(a, b, i, chunk, c);
    }
  }

  lemma SameColumn(a: seq<Byte>, b: seq<Byte>, i: nat, chunk: seq<Byte>, c: nat)
    requires i < 0x1_0000 && |chunk| <= 16 && IsRow(a, i, chunk) && IsRow(b, i, chunk) && c < ROW
    ensures a[c] == b[c]
  {
    if 8 <= c < 59 && (c - 8) % 13 < 12 {
      var j := 4 * ((c - 8) / 13) + (c - 8) % 13 / 3;
      assert Col(j) <= c <= Col(j) + 2;
      if j < |chunk| { assert Shows(a, j, chunk[j]) && Shows(b, j, chunk[j]); }
      else { assert Blank(a, j) && Blank(b, j); }
    } else if 61 <= c < 77 {
      var j := c - 61;
      if j < |chunk| { assert Shows(a, j, chunk[j]) && Shows(b, j, chunk[j]); }
      else { assert Blank(a, j) && Blank(b, j); }
    }
  }

  // Digits are the sixteen of the source's table.
  lemma DigitIs(n: nat)
    requires n < 16
    ensures HexDigit(n) == "0123456789ABCDEF"[n] as int
  {
  }

  lemma ShowsIs(row: seq<Byte>, j: nat, b: Byte)
    requires |row| == ROW && j < 16 && Shows(row, j, b)
    ensures row[8 + 3 * j + j / 4] == "0123456789ABCDEF"[b / 16] as int
    ensures row[8 + 3 * j + j / 4 + 1] == "0123456789ABCDEF"[b % 16] as int
    ensures row[61 + j] == if 33 <= b <= 126 then b else '.' as int
  {
    DigitIs(b / 16);
    DigitIs(b % 16);
  }

  // Row r of a dump, and the bytes it is for.
  lemma RowOf(rows: seq<seq<Byte>>, data: seq<Byte>, r: nat) returns (chunk: seq<Byte>)
    requires |data| < 0x10_0000 && IsDump(rows, data) && r < |rows|
    ensures r < 0x1_0000 && |chunk| <= 16 && IsRow(rows[r], r, chunk)
    ensures 16 * r + |chunk| <= |data| && chunk == data[16 * r..16 * r + |chunk|]
    ensures |chunk| == if r < |data| / 16 then 16 else |data| % 16
  {
    chunk := if r < |data| / 16 then data[16 * r..16 * r + 16] else data[16 * r..];
  }

  // Where byte k of the data stands in the dump: in row k / 16, twice in hex and once as it prints, a dot standing for
  // what does not.
  lemma DumpShows(rows: seq<seq<Byte>>, data: seq<Byte>, k: nat)
    requires |data| < 0x10_0000 && IsDump(rows, data) && k < |data|
    ensures var r, j := k / 16, k % 16;
      && r < |rows| && |rows[r]| == 78
      && rows[r][8 + 3 * j + j / 4] == "0123456789ABCDEF"[data[k] / 16] as int
      && rows[r][8 + 3 * j + j / 4 + 1] == "0123456789ABCDEF"[data[k] % 16] as int
      && rows[r][61 + j] == if 33 <= data[k] <= 126 then data[k] else '.' as int
  {
    var r, j := k / 16, k % 16;
    assert k == 16 * r + j;
    var chunk := RowOf(rows, data, r);
    assert chunk[j] == data[k];
    ShowsIs(rows[r], j, data[k]);
  }

  // After the last byte, the last row is blank.
  lemma DumpEnds(rows: seq<seq<Byte>>, data: seq<Byte>, j: nat)
    requires |data| < 0x10_0000 && IsDump(rows, data) && |data| % 16 <= j < 16
    ensures |rows| == |data| / 16 + 1 && |rows[|data| / 16]| == 78
    ensures var last := rows[|data| / 16];
      last[8 + 3 * j + j / 4] == last[8 + 3 * j + j / 4 + 1] == last[61 + j] == ' ' as int
  {
    var chunk := RowOf(rows, data, |data| / 16);
    assert Blank(rows[|data| / 16], j);
  }

  lemma DigitValue(n: nat)
    requires n < 16
    ensures HexValue(HexDigit(n)) == n
  {
  }

  // A row begins with its number in four hex digits; the digit 0 after them stands for the 16 bytes a row has.
  lemma RowNumbered(rows: seq<seq<Byte>>, data: seq<Byte>, r: nat)
    requires |data| < 0x10_0000 && IsDump(rows, data) && r < |rows|
    ensures |rows[r]| == 78 && rows[r][0] == '[' as int && rows[r][5] == '0' as int && rows[r][6] == ']' as int
    ensures rows[r][60] == '|' as int && rows[r][77] == '|' as int
    ensures 4096 * HexValue(rows[r][1]) + 256 * HexValue(rows[r][2]) + 16 * HexValue(rows[r][3]) + HexValue(rows[r][4])
         == r
  {
    var chunk := RowOf(rows, data, r);
    DigitValue(r / 0x1000);
    DigitValue(r / 0x100 % 16);
    DigitValue(r / 0x10 % 16);
    DigitValue(r % 16);
    FourDigits(r);
  }

  lemma FourDigits(r: nat)
    requires r < 0x1_0000
    ensures 4096 * (r / 0x1000) + 256 * (r / 0x100 % 16) + 16 * (r / 0x10 % 16) + r % 16 == r
  {
    var a, b := r / 0x10, r / 0x100;
    assert r == 16 * a + r % 16;
    assert b == a / 16 && a == 16 * b + a % 16;
    assert r / 0x1000 == b / 16 && b == 16 * (b / 16) + b % 16;
  }
}
