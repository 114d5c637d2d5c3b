/** The line parser and its flow control (parse_line in parse.cpp, and the
    older parse_line in parse.h). A line is scanned character by character:
    blanks are skipped, a '(' starts a comment that runs to the end of the
    line, and any other character is a letter whose number is read by
    read_float. The letters edit a copy of the last queued block; at the end
    of the line the block is queued and the reply chosen. */
module Parse {
  import opened Gcode
  import opened Buffer

  /** The line sent back to the host: "ok", "dropped", or nothing. */
  datatype Reply = Ok | Dropped | NoReply

  /** parse.cpp sets rapid from every G word; parse.h only from G0 and G1. */
  datatype Dialect = Current | Legacy

  /** What read_float gives back: failure, or a value and the index just
      past the number. */
  datatype FloatRead = NoNumber | Number(value: real, next: nat)

  /** read_float, which is not part of this model, as a parameter: the
      value read from a line at an index. */
  type FloatReader = (seq<char>, nat) -> FloatRead

  /** What the parser relies on from read_float: a number it reads ends
      past the index it started at and within the line. */
  ghost predicate Advances(rf: FloatReader, line: seq<char>)
  {
    forall i: nat :: i <= |line| && rf(line, i).Number? ==> i < rf(line, i).next <= |line|
  }

  /** The part of machine_state the parser writes. */
  class MachineState {
    var rapid: bool

    constructor ()
      ensures !rapid
    {
      rapid := false;
    }
  }

  /** The result of scanning a line: the edited block and the rapid flag, or
      an invalid number (after which the rapid flag keeps what earlier G
      words of the line wrote). */
  datatype Scanned = Complete(block: Block, rapid: bool) | InvalidNumber(rapid: bool)

  /** C++ `(int)value`: truncation toward zero. */
  function Trunc(v: real): (t: int)
    ensures 0.0 <= v ==> t as real <= v < t as real + 1.0
    ensures v < 0.0 ==> t as real - 1.0 < v <= t as real
  {
    if v >= 0.0 then v.Floor else -((-v).Floor)
  }

  /** The feed an F word sets: `min((int)value, MAX_FEED)`. */
  function FeedFrom(v: real): (f: int)
    ensures f <= MAX_FEED
    ensures f == Trunc(v) || (f == MAX_FEED && Trunc(v) > MAX_FEED)
  {
    if Trunc(v) < MAX_FEED then Trunc(v) else MAX_FEED
  }

  /** The rapid flag after a G word with value v. */
  function GRapid(d: Dialect, v: real, rapid: bool): (r: bool)
    ensures v == 1.0 ==> r
    ensures v == 0.0 ==> !r
    ensures d == Current ==> (r <==> v == 1.0)
    ensures d == Legacy && v != 0.0 && v != 1.0 ==> r == rapid
  {
    match d
    case Current => v == 1.0
    case Legacy => if v == 1.0 then true else if v == 0.0 then false else rapid
  }

  /** The effect of one letter and its number on the block and the rapid
      flag. M0 is a diagnostic printout and changes nothing. */
  function ApplyWord(d: Dialect, letter: char, v: real, blk: Block, rapid: bool): (r: (Block, bool))
    ensures letter != 'G' ==> r.1 == rapid
    ensures letter == 'G' ==> r.0 == blk && r.1 == GRapid(d, v, rapid)
    ensures letter == 'M' ==> r.0.pt == blk.pt && r.0.feed == blk.feed
    ensures letter == 'M' && v == 0.0 ==> r.0 == blk
    ensures letter == 'M' && v != 0.0 ==> (r.0.lift <==> v == 3.0)
    ensures letter == 'F' ==> r.0 == blk.(feed := FeedFrom(v)) && r.0.feed <= MAX_FEED
    ensures letter == 'X' ==> r.0.pt.x == v && r.0.pt.y == blk.pt.y && r.0.feed == blk.feed && r.0.lift == blk.lift
    ensures letter == 'Y' ==> r.0.pt.y == v && r.0.pt.x == blk.pt.x && r.0.feed == blk.feed && r.0.lift == blk.lift
    ensures letter !in "GMFXY" ==> r == (blk, rapid)
  {
    if letter == 'G' then (blk, GRapid(d, v, rapid))
    else if letter == 'M' then (if v == 0.0 then blk else blk.(lift := v == 3.0), rapid)
    else if letter == 'F' then (blk.(feed := FeedFrom(v)), rapid)
    else if letter == 'X' then (blk.(pt := blk.pt.(x := v)), rapid)
    else if letter == 'Y' then (blk.(pt := blk.pt.(y := v)), rapid)
    else (blk, rapid)
  }

  predicate IsBlank(ch: char)
  {
    ch == ' ' || ch == '\r' || ch == '\n'
  }

  /** The scan of a line from index i, with the comment flag, block and
      rapid flag reached so far. The line ends at its first NUL or at the
      end of the sequence. */
  function Scan(d: Dialect, line: seq<char>, i: nat, comment: bool, blk: Block, rapid: bool, rf: FloatReader): (r: Scanned)
    requires i <= |line| && Advances(rf, line)
    decreases |line| - i
    ensures r.Complete? ==> r.block.feed == blk.feed || r.block.feed <= MAX_FEED
  {
    if i == |line| || line[i] == '\0' then Complete(blk, rapid)
    else if IsBlank(line[i]) then Scan(d, line, i + 1, comment, blk, rapid, rf)
    else if line[i] == '(' || comment then Scan(d, line, i + 1, true, blk, rapid, rf)
    else if line[i] == ')' then Scan(d, line, i + 1, false, blk, rapid, rf)
    else
      match rf(line, i + 1)
      case NoNumber => InvalidNumber(rapid)
      case Number(v, next) =>
        var w := ApplyWord(d, line[i], v, blk, rapid);
        Scan(d, line, next, comment, w.0, w.1, rf)
  }

  /** The scanner loop of parse_line, proved to compute Scan. */
  method ScanLine(d: Dialect, line: seq<char>, rf: FloatReader, seed: Block, rapid0: bool) returns (out: Scanned)
    requires Advances(rf, line)
    ensures out == Scan(d, line, 0, false, seed, rapid0, rf)
  {
    var i: nat := 0;
    var comment := false;
    var blk := seed;
    var rapid := rapid0;
    while i < |line| && line[i] != '\0'
      invariant i <= |line|
      invariant Scan(d, line, i, comment, blk, rapid, rf) == Scan(d, line, 0, false, seed, rapid0, rf)
      decreases |line| - i
    {
      var ch := line[i];
      if ch == ' ' || ch == '\r' || ch == '\n' {
        i := i + 1;
        continue;
      }
      if ch == '(' || comment {
        comment := true;
        i := i + 1;
        continue;
      }
      if ch == ')' {
        comment := false;
        i := i + 1;
        continue;
      }
      i := i + 1;
      var r := rf(line, i);
      if r.Number? {
        var w := ApplyWord(d, ch, r.value, blk, rapid);
        blk, rapid := w.0, w.1;
        i := r.next;
        continue;
      } else {
        return InvalidNumber(rapid);
      }
    }
    return Complete(blk, rapid);
  }

  /** The reply and the new queue contents for a scanned line and the queue
      it meets: nothing is queued or sent after an invalid number; a full
      queue drops the block; otherwise the block is queued and "ok" is sent
      only if the queue still has room. */
  function Intake(out: Scanned, queued: seq<Block>): (r: (Reply, seq<Block>))
    requires |queued| <= BUFFER_SIZE - 1
    ensures r.0 == Ok <==> out.Complete? && |queued| < BUFFER_SIZE - 2
    ensures r.0 == Dropped <==> out.Complete? && |queued| == BUFFER_SIZE - 1
    ensures r.0 == NoReply <==> out.InvalidNumber? || |queued| == BUFFER_SIZE - 2
    ensures r.1 == if out.Complete? && |queued| < BUFFER_SIZE - 1 then queued + [out.block] else queued
    ensures |r.1| <= BUFFER_SIZE - 1
  {
    if out.InvalidNumber? then (NoReply, queued)
    else if |queued| == BUFFER_SIZE - 1 then (Dropped, queued)
    else (if |queued| + 1 != BUFFER_SIZE - 1 then Ok else NoReply, queued + [out.block])
  }

  /** parse_line: scan the line, starting from a copy of buffer_last(), then
      apply the reply protocol against the queue. With dialect Current this
      is parse.cpp's version, with Legacy parse.h's. */
  method ParseLine(d: Dialect, line: seq<char>, rf: FloatReader, buf: BlockBuffer, ms: MachineState)
    returns (reply: Reply)
    requires buf.Valid() && Advances(rf, line)
    modifies buf, buf.slots, ms
    ensures buf.Valid() && buf.front == old(buf.front)
    ensures var out := Scan(d, line, 0, false, old(buf.Last()), old(ms.rapid), rf);
      && ms.rapid == out.rapid
      && (reply, buf.Contents()) == Intake(out, old(buf.Contents()))
      && (|buf.Contents()| == |old(buf.Contents())| ==>
            buf.back == old(buf.back) && buf.slots[..] == old(buf.slots[..]))
      && (|buf.Contents()| != |old(buf.Contents())| ==>
            && buf.back == old(buf.Next())
            && buf.slots[..] == old(buf.slots[..])[old(buf.back) := out.block]
            && buf.Last() == out.block)
  {
    var seed := buf.Last();
    var out := ScanLine(d, line, rf, seed, ms.rapid);
    ms.rapid := out.rapid;
    if out.InvalidNumber? {
      return NoReply;
    }
    if !buf.IsFull() {
      var _ := buf.Add(out.block);
      if !buf.IsFull() {
        reply := Ok;
      } else {
        reply := NoReply;
      }
    } else {
      reply := Dropped;
    }
  }

  /** The line after index i holds no occurrence of the character c. */
  predicate Lacks(line: seq<char>, i: nat, c: char)
  {
    forall j :: i <= j < |line| ==> line[j] != c
  }

  /** Blanks are skipped with no effect, and so is a ')' outside a comment. */
  lemma SkippedCharacters(d: Dialect, line: seq<char>, i: nat, comment: bool, blk: Block, rapid: bool, rf: FloatReader)
    requires i < |line| && Advances(rf, line)
    ensures IsBlank(line[i]) ==>
      Scan(d, line, i, comment, blk, rapid, rf) == Scan(d, line, i + 1, comment, blk, rapid, rf)
    ensures line[i] == ')' && !comment ==>
      Scan(d, line, i, comment, blk, rapid, rf) == Scan(d, line, i + 1, false, blk, rapid, rf)
  {
  }

  /** Once a '(' is seen, the rest of the line is skipped, ')' included:
      the line completes with the block and rapid flag reached so far. */
  lemma {:induction false} CommentToEnd(d: Dialect, line: seq<char>, i: nat, comment: bool, blk: Block, rapid: bool, rf: FloatReader)
    requires i <= |line| && Advances(rf, line)
    requires comment || (i < |line| && line[i] == '(')
    decreases |line| - i
    ensures Scan(d, line, i, comment, blk, rapid, rf) == Complete(blk, rapid)
  {
    if i < |line| && line[i] != '\0' {
      CommentToEnd(d, line, i + 1, true, blk, rapid, rf);
    }
  }

  /** A letter whose number cannot be read ends the scan at once. */
  lemma InvalidNumberStops(d: Dialect, line: seq<char>, i: nat, blk: Block, rapid: bool, rf: FloatReader)
    requires i < |line| && Advances(rf, line)
    requires line[i] != '\0' && !IsBlank(line[i]) && line[i] != '(' && line[i] != ')'
    requires rf(line, i + 1) == NoNumber
    ensures Scan(d, line, i, false, blk, rapid, rf) == InvalidNumber(rapid)
  {
  }

  /** Fields that the line does not mention keep the values of the seed
      block, and the rapid flag keeps its value when there is no G. */
  lemma {:induction false} Inherits(d: Dialect, line: seq<char>, i: nat, comment: bool, blk: Block, rapid: bool, rf: FloatReader)
    requires i <= |line| && Advances(rf, line)
    decreases |line| - i
    ensures var out := Scan(d, line, i, comment, blk, rapid, rf);
      && (Lacks(line, i, 'G') ==> out.rapid == rapid)
      && (out.Complete? ==>
            && (Lacks(line, i, 'X') ==> out.block.pt.x == blk.pt.x)
            && (Lacks(line, i, 'Y') ==> out.block.pt.y == blk.pt.y)
            && (Lacks(line, i, 'F') ==> out.block.feed == blk.feed)
            && (Lacks(line, i, 'M') ==> out.block.lift == blk.lift))
  {
    if i == |line| || line[i] == '\0' {
    } else if IsBlank(line[i]) {
      Inherits(d, line, i + 1, comment, blk, rapid, rf);
    } else if line[i] == '(' || comment {
      Inherits(d, line, i + 1, true, blk, rapid, rf);
    } else if line[i] == ')' {
      Inherits(d, line, i + 1, false, blk, rapid, rf);
    } else {
      match rf(line, i + 1)
      case NoNumber =>
      case Number(v, next) =>
        var w := ApplyWord(d, line[i], v, blk, rapid);
        Inherits(d, line, next, comment, w.0, w.1, rf);
    }
  }

  /** The two versions of parse_line agree on every line without a G. */
  lemma {:induction false} DialectsAgree(line: seq<char>, i: nat, comment: bool, blk: Block, rapid: bool, rf: FloatReader)
    requires i <= |line| && Advances(rf, line)
    requires Lacks(line, i, 'G')
    decreases |line| - i
    ensures Scan(Current, line, i, comment, blk, rapid, rf) == Scan(Legacy, line, i, comment, blk, rapid, rf)
  {
    if i == |line| || line[i] == '\0' {
    } else if IsBlank(line[i]) {
      DialectsAgree(line, i + 1, comment, blk, rapid, rf);
    } else if line[i] == '(' || comment {
      DialectsAgree(line, i + 1, true, blk, rapid, rf);
    } else if line[i] == ')' {
      DialectsAgree(line, i + 1, false, blk, rapid, rf);
    } else {
      match rf(line, i + 1)
      case NoNumber =>
      case Number(v, next) =>
        var w := ApplyWord(Current, line[i], v, blk, rapid);
        assert w == ApplyWord(Legacy, line[i], v, blk, rapid);
        DialectsAgree(line, next, comment, w.0, w.1, rf);
    }
  }

  predicate IsDigit(c: char)
  {
    '0' <= c <= '9'
  }

  /** The length of the run of decimal digits at index i. */
  function DigitRun(s: seq<char>, i: nat): (n: nat)
    requires i <= |s|
    decreases |s| - i
    ensures i + n <= |s|
    ensures forall j :: i <= j < i + n ==> IsDigit(s[j])
    ensures i + n < |s| ==> !IsDigit(s[i + n])
  {
    if i < |s| && IsDigit(s[i]) then 1 + DigitRun(s, i + 1) else 0
  }

  /** The value of a string of decimal digits. */
  function DigitsValue(s: seq<char>): int
  {
    if s == [] then 0 else 10 * DigitsValue(s[..|s| - 1]) + (s[|s| - 1] as int - '0' as int)
  }

  /** A reader of unsigned decimal integers: a simple stand-in for read_float
      used to run the parser on concrete lines. */
  function IntegerReader(s: seq<char>, i: nat): FloatRead
  {
    if i < |s| && IsDigit(s[i]) then
      var n := DigitRun(s, i);
      Number(DigitsValue(s[i..i + n]) as real, i + n)
    else NoNumber
  }

  lemma IntegerReaderAdvances(line: seq<char>)
    ensures Advances(IntegerReader, line)
  {
  }

  /** The scan of "X10 Y10" from a default block. */
  lemma ScanFirstExample()
    ensures Advances(IntegerReader, "X10 Y10")
      && Scan(Current, "X10 Y10", 0, false, DefaultBlock(), false, IntegerReader)
         == Complete(DefaultBlock().(pt := Point(10.0, 10.0)), false)
  {
    var line := "X10 Y10";
    IntegerReaderAdvances(line);
    assert DigitRun(line, 6) == 1;
    assert DigitRun(line, 2) == 1 && DigitRun(line, 1) == 2;
    assert DigitsValue(['1', '0']) == 10;
    assert line[1..3] == ['1', '0'] && line[5..7] == ['1', '0'];
    assert DigitRun(line, 5) == 2;
  }

  /** The scan of "X20" from the block at (10, 10). */
  lemma ScanSecondExample()
    ensures Advances(IntegerReader, "X20")
      && Scan(Current, "X20", 0, false, DefaultBlock().(pt := Point(10.0, 10.0)), false, IntegerReader)
         == Complete(DefaultBlock().(pt := Point(20.0, 10.0)), false)
  {
    var line := "X20";
    IntegerReaderAdvances(line);
    assert DigitRun(line, 2) == 1 && DigitRun(line, 1) == 2;
    assert DigitsValue(['2', '0']) == 20;
    assert line[1..3] == ['2', '0'];
  }

  /** Omitted fields are inherited: after "X10 Y10" and then "X20" on an
      empty queue, the second queued block is at (20, 10), and both lines
      are answered "ok". */
  method InheritanceExample() returns (first: Reply, second: Reply, last: Block)
    ensures first == Ok && second == Ok
    ensures last == DefaultBlock().(pt := Point(20.0, 10.0))
  {
    var buf := new BlockBuffer();
    var ms := new MachineState();
    ScanFirstExample();
    ScanSecondExample();
    first := ParseLine(Current, "X10 Y10", IntegerReader, buf, ms);
    assert buf.Last() == DefaultBlock().(pt := Point(10.0, 10.0));
    second := ParseLine(Current, "X20", IntegerReader, buf, ms);
    last := buf.Last();
  }
}
