/** The test-data file: what make_test_data.lua writes and load_test_data reads. */
module TestData {
  import opened NetUtil
  import opened ConnModel

  const MAX_RECORDS := 10000
  const MAX_FRAME := 102400

  // A record as it goes on the wire: its own length, head included, and the body.
  function Frame(body: seq<Byte>): seq<Byte>
    requires |body| + 4 < WORD32
  {
    PackInt32(|body| + 4) + body
  }

  function Concat(frames: seq<seq<Byte>>): seq<Byte> {
    if frames == [] then [] else frames[0] + Concat(frames[1..])
  }

  ghost predicate FrameOk(f: seq<Byte>) {
    4 < |f| <= 102400 && UnpackInt32(f[..4]) == |f|
  }

  ghost predicate FramesOk(frames: seq<seq<Byte>>) {
    0 < |frames| <= 10000 && forall i :: 0 <= i < |frames| ==> FrameOk(frames[i])
  }

  // The loader as a value: the first n frames of the bytes.
  function LoadFrames(bytes: seq<Byte>, n: nat): Option<seq<seq<Byte>>>
    decreases n
  {
    if n == 0 then Some([])
    else if |bytes| < 4 then None
    else
      var length := ReadInt(bytes[..4]);
      if length <= 4 || length > MAX_FRAME || |bytes| < length then None
      else
        match LoadFrames(bytes[length..], n - 1)
        case None => None
        case Some(rest) => Some([bytes[..length]] + rest)
  }

  function Load(file: seq<Byte>): Option<seq<seq<Byte>>> {
    if |file| < 4 then None
    else
      var n := ReadInt(file[..4]);
      if n <= 0 || n > MAX_RECORDS then None else LoadFrames(file[4..], n)
  }

  lemma {:induction false} LoadFramesOfConcat(frames: seq<seq<Byte>>, tail: seq<Byte>)
    requires forall i :: 0 <= i < |frames| ==> FrameOk(frames[i])
    ensures LoadFrames(Concat(frames) + tail, |frames|) == Some(frames)
    decreases |frames|
  {
    if frames != [] {
      var f, rest := frames[0], frames[1..];
      var bytes := Concat(frames) + tail;
      assert bytes == f + (Concat(rest) + tail);
      assert bytes[..4] == f[..4] && bytes[..|f|] == f && bytes[|f|..] == Concat(rest) + tail;
      LoadFramesOfConcat(rest, tail);
      assert ReadInt(f[..4]) == |f| && frames == [f] + rest;
    }
  }

  lemma FirstFrame(bytes: seq<Byte>, length: nat, rest: seq<seq<Byte>>)
    requires 4 <= length <= |bytes| && Concat(rest) <= bytes[length..]
    ensures Concat([bytes[..length]] + rest) <= bytes && bytes[..length][..4] == bytes[..4]
  {
    assert bytes == bytes[..length] + bytes[length..];
    assert ([bytes[..length]] + rest)[1..] == rest;
  }

  lemma {:induction false} LoadedFramesConcat(bytes: seq<Byte>, n: nat)
    requires LoadFrames(bytes, n).Some?
    ensures var frames := LoadFrames(bytes, n).value;
      && |frames| == n && Concat(frames) <= bytes
      && forall i :: 0 <= i < n ==> FrameOk(frames[i])
    decreases n
  {
    if n > 0 {
      var length := ReadInt(bytes[..4]);
      LoadedFramesConcat(bytes[length..], n - 1);
      FirstFrame(bytes, length, LoadFrames(bytes[length..], n - 1).value);
    }
  }

  // A count and that many good frames are loaded as they are, whatever follows them.
  lemma LoadAccepts(file: seq<Byte>, frames: seq<seq<Byte>>)
    requires FramesOk(frames) && PackInt32(|frames|) + Concat(frames) <= file
    ensures Load(file) == Some(frames)
  {
    CountRead(file, |frames|, Concat(frames));
    var tail := file[4 + |Concat(frames)|..];
    assert file[4..] == Concat(frames) + tail;
    LoadFramesOfConcat(frames, tail);
  }

  lemma CountRead(file: seq<Byte>, n: nat, bytes: seq<Byte>)
    requires n < 0x8000_0000 && PackInt32(n) + bytes <= file
    ensures |file| >= 4 + |bytes| && ReadInt(file[..4]) == n && bytes <= file[4..]
  {
    ReadPacked(n);
    assert file[..4] == PackInt32(n);
  }

  lemma CountPacked(file: seq<Byte>)
    requires |file| >= 4 && 0 <= ReadInt(file[..4])
    ensures file == PackInt32(ReadInt(file[..4])) + file[4..]
  {
    PackRead(file[..4]);
  }

  // Whatever is loaded is what the file begins with.
  lemma LoadReturns(file: seq<Byte>, frames: seq<seq<Byte>>)
    requires Load(file) == Some(frames)
    ensures FramesOk(frames) && PackInt32(|frames|) + Concat(frames) <= file
  {
    CountPacked(file);
    LoadedFramesConcat(file[4..], ReadInt(file[..4]));
  }

  // The loader accepts exactly the files that begin with a count and that many frames, and returns those frames.
  lemma LoadExactly(file: seq<Byte>, frames: seq<seq<Byte>>)
    ensures Load(file) == Some(frames) <==> FramesOk(frames) && PackInt32(|frames|) + Concat(frames) <= file
  {
    if FramesOk(frames) && PackInt32(|frames|) + Concat(frames) <= file {
      LoadAccepts(file, frames);
    }
    if Load(file) == Some(frames) {
      LoadReturns(file, frames);
    }
  }

  function Frames(bodies: seq<seq<Byte>>): (frames: seq<seq<Byte>>)
    requires forall i :: 0 <= i < |bodies| ==> |bodies[i]| + 4 < WORD32
  {
    seq(|bodies|, i requires 0 <= i < |bodies| => Frame(bodies[i]))
  }

  // Loading what the script writes gives every string back, framed, in order.
  lemma RoundTrip(bodies: seq<seq<Byte>>)
    requires 1 <= |bodies| <= 10000 && forall i :: 0 <= i < |bodies| ==> 1 <= |bodies[i]| <= 102396
    ensures Load(PackInt32(|bodies|) + Concat(Frames(bodies))) == Some(Frames(bodies))
    ensures |Frames(bodies)| == |bodies|
    ensures forall i :: 0 <= i < |bodies| ==> Frames(bodies)[i] == PackInt32(|bodies[i]| + 4) + bodies[i]
  {
    var frames := Frames(bodies);
    forall i | 0 <= i < |frames| ensures FrameOk(frames[i]) {
      PackUnpack(|bodies[i]| + 4);
      assert frames[i][..4] == PackInt32(|bodies[i]| + 4);
    }
    LoadAccepts(PackInt32(|bodies|) + Concat(frames), frames);
  }

  lemma {:induction false} ConcatSnoc(frames: seq<seq<Byte>>, f: seq<Byte>)
    ensures Concat(frames + [f]) == Concat(frames) + f
  {
    if frames != [] {
      ConcatSnoc(frames[1..], f);
      assert (frames + [f])[1..] == frames[1..] + [f];
    }
  }

  // make_test_data.lua; table.concat joins the pieces in the order they were inserted.
  method MakeTestData(testData: seq<seq<Byte>>) returns (file: seq<Byte>)
    requires |testData| < WORD32 && forall i :: 0 <= i < |testData| ==> |testData[i]| + 4 < WORD32
    ensures file == PackInt32(|testData|) + Concat(Frames(testData))
  {
    var pieces := [PackInt32(|testData|)];
    assert Concat(pieces) == pieces[0] + Concat([]);
    for i := 0 to |testData|
      invariant Concat(pieces) == PackInt32(|testData|) + Concat(Frames(testData[..i]))
    {
      var len := |testData[i]| + 4;
      ConcatSnoc(pieces, PackInt32(len));
      pieces := pieces + [PackInt32(len)];
      ConcatSnoc(pieces, testData[i]);
      pieces := pieces + [testData[i]];
      ConcatSnoc(Frames(testData[..i]), Frame(testData[i]));
      assert Frames(testData[..i + 1]) == Frames(testData[..i]) + [Frame(testData[i])];
    }
    assert testData[..|testData|] == testData;
    file := Concat(pieces);
  }

  // The part of config_t that load_test_data fills in.
  class Config {
    var testDataN: nat
    var testData: array<seq<Byte>>

    constructor ()
      ensures testDataN == 0
    {
      testDataN := 0;
      testData := new seq<Byte>[0];
    }

    method LoadTestData(file: seq<Byte>) returns (ret: int)
      modifies this
      ensures ret == 0 || ret == -1
      ensures ret == 0 <==> Load(file).Some?
      ensures ret == 0 ==> testDataN == testData.Length && testData[..] == Load(file).value && fresh(testData)
    {
      var at := Fread(file, 0, 4);
      if at != 4 {
        return -1;
      }
      var total := ReadInt(file[..4]);
      if total <= 0 || total > MAX_RECORDS {
        return -1;
      }
      testDataN := total;
      testData := new seq<Byte>[total](_ => []);
      LoadStart(file);
      var ok := ReadRecords(file, Load(file));
      return if ok then 0 else -1;
    }

    // The loop of load_test_data; goal is what the whole file amounts to.
    method ReadRecords(file: seq<Byte>, ghost goal: Option<seq<seq<Byte>>>) returns (ok: bool)
      requires testDataN == testData.Length && |file| >= 4 && ToLoad([], file[4..], testDataN, goal)
      modifies testData
      ensures if ok then goal == Some(testData[..]) else goal == None
    {
      var pos, i := 4, 0;
      while i < testDataN
        invariant i <= testDataN && 4 <= pos <= |file|
        invariant ToLoad(testData[..i], file[pos..], testDataN - i, goal)
      {
        LoadStep(testData[..i], file[pos..], testDataN - i, goal);
        var frame := ReadRecord(file, pos);
        if frame == [] {
          return false;
        }
        testData[i] := frame;
        pos := pos + |frame|;
        i := i + 1;
        assert testData[..i] == testData[..i - 1] + [frame];
      }
      ok := true;
      assert testData[..i] == testData[..] && testData[..i] + [] == testData[..i];
    }
  }

  // One record at pos, its length prefix packed anew; empty if the file does not hold an acceptable one.
  method ReadRecord(file: seq<Byte>, pos: nat) returns (frame: seq<Byte>)
    requires pos <= |file|
    ensures var bytes := file[pos..];
      frame == if |bytes| < 4 || ReadInt(bytes[..4]) <= 4 || ReadInt(bytes[..4]) > MAX_FRAME
                  || |bytes| < ReadInt(bytes[..4]) then [] else bytes[..ReadInt(bytes[..4])]
    ensures pos + |frame| <= |file| && file[pos..][|frame|..] == file[pos + |frame|..]
  {
    var n := Fread(file, pos, 4);
    if n != 4 {
      return [];
    }
    var head := file[pos..pos + 4];
    assert file[pos..][..4] == head;
    var length := ReadInt(head);
    if length <= 4 || length > MAX_FRAME {
      return [];
    }
    n := Fread(file, pos + 4, length - 4);
    if n != length - 4 {
      return [];
    }
    PackRead(head);
    frame := PackInt32(length) + file[pos + 4..pos + length];
    assert frame == file[pos..][..length];
  }

  // done has been loaded, and n more frames are to come from bytes, making up goal.
  ghost predicate ToLoad(done: seq<seq<Byte>>, bytes: seq<Byte>, n: nat, goal: Option<seq<seq<Byte>>>) {
    goal == Prepend(done, LoadFrames(bytes, n))
  }

  lemma LoadStep(done: seq<seq<Byte>>, bytes: seq<Byte>, n: nat, goal: Option<seq<seq<Byte>>>)
    requires n > 0 && ToLoad(done, bytes, n, goal)
    ensures if |bytes| < 4 || ReadInt(bytes[..4]) <= 4 || ReadInt(bytes[..4]) > MAX_FRAME
               || |bytes| < ReadInt(bytes[..4])
            then goal == None
            else ToLoad(done + [bytes[..ReadInt(bytes[..4])]], bytes[ReadInt(bytes[..4])..], n - 1, goal)
  {
    if 4 <= |bytes| && 4 < ReadInt(bytes[..4]) <= MAX_FRAME && ReadInt(bytes[..4]) <= |bytes| {
      var length := ReadInt(bytes[..4]);
      var f, rest := bytes[..length], LoadFrames(bytes[length..], n - 1);
      if rest.Some? {
        assert done + ([f] + rest.value) == done + [f] + rest.value;
      }
    }
  }

  lemma LoadStart(file: seq<Byte>)
    requires 4 <= |file| && 0 < ReadInt(file[..4]) <= MAX_RECORDS
    ensures ToLoad([], file[4..], ReadInt(file[..4]), Load(file))
  {
    var r := LoadFrames(file[4..], ReadInt(file[..4]));
    if r.Some? { assert [] + r.value == r.value; }
  }

  function Prepend(done: seq<seq<Byte>>, rest: Option<seq<seq<Byte>>>): Option<seq<seq<Byte>>> {
    match rest
    case None => None
    case Some(frames) => Some(done + frames)
  }

  // How many of the n bytes asked for are left in the file.
  method Fread(file: seq<Byte>, pos: nat, n: nat) returns (count: nat)
    ensures count == if pos + n <= |file| then n else if pos <= |file| then |file| - pos else 0
  {
    count := if pos + n <= |file| then n else if pos <= |file| then |file| - pos else 0;
  }

  // The loaded records meet what the connections need of them: at least one, and none empty.
  lemma LoadedRecordsUsable(file: seq<Byte>, s: Settings)
    requires Load(file) == Some(s.records) && s.sleepMin <= s.sleepMax < WORD32
    ensures s.Valid()
  {
    LoadExactly(file, s.records);
  }
}
