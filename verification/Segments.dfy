/** WAL segment names and positions, as computed by scripts/wal-e-wal-fetch.sh,
    scripts/basebackup.sh and scripts/wale_restore.sh. */
module Segments {
  import opened Strings

  // ---- Hexadecimal numbers: printf %X, %08X and $((16#...)) ---------------------------

  predicate IsHexDigit(c: char) {
    '0' <= c <= '9' || 'A' <= c <= 'F'
  }

  predicate IsHex(s: string) {
    forall i :: 0 <= i < |s| ==> IsHexDigit(s[i])
  }

  function DigitValue(c: char): (v: nat)
    requires IsHexDigit(c)
    ensures v < 16
  {
    if c <= '9' then (c - '0') as nat else (c - 'A') as nat + 10
  }

  function Digit(v: nat): (c: char)
    requires v < 16
    ensures IsHexDigit(c) && DigitValue(c) == v
  {
    if v < 10 then '0' + v as char else 'A' + (v - 10) as char
  }

  /** $((16#s)) */
  function Parse(s: string): nat
    requires IsHex(s)
  {
    if s == "" then 0 else 16 * Parse(s[..|s| - 1]) + DigitValue(s[|s| - 1])
  }

  /** The last k hexadecimal digits of n. */
  function Digits(n: nat, k: nat): (s: string)
    ensures |s| == k && IsHex(s)
  {
    if k == 0 then "" else Digits(n / 16, k - 1) + [Digit(n % 16)]
  }

  /** How many digits %X prints. */
  function Width(n: nat): (w: nat)
    ensures w >= 1
  {
    if n < 16 then 1 else 1 + Width(n / 16)
  }

  /** %X */
  function Print(n: nat): (s: string)
    ensures IsHex(s)
  {
    Digits(n, Width(n))
  }

  const WORD := 0x1_0000_0000

  /** %08X of a 64-bit word; a negative number prints as its two's complement. */
  function Print8(n: int): (s: string)
    ensures IsHex(s)
  {
    var word := n % (WORD * WORD);
    Digits(word, if Width(word) < 8 then 8 else Width(word))
  }

  // ---- Round trips ------------------------------------------------------------------------

  function Pow16(k: nat): (p: nat)
    ensures p >= 1
  {
    if k == 0 then 1 else 16 * Pow16(k - 1)
  }

  lemma {:induction false} ParseDigits(n: nat, k: nat)
    ensures Parse(Digits(n, k)) == n <==> n < Pow16(k)
    ensures Parse(Digits(n, k)) <= n
  {
    if k > 0 {
      ParseDigits(n / 16, k - 1);
      var s := Digits(n, k);
      assert s[..|s| - 1] == Digits(n / 16, k - 1);
    }
  }

  lemma {:induction false} WidthFits(n: nat, k: nat)
    requires k >= 1
    ensures Width(n) <= k <==> n < Pow16(k)
  {
    if n >= 16 {
      if k == 1 {
        assert Pow16(1) == 16 * Pow16(0);
      } else {
        WidthFits(n / 16, k - 1);
      }
    } else {
      assert Pow16(k) == 16 * Pow16(k - 1);
    }
  }

  /** Reading what was printed gives the number, however wide. */
  lemma ParsePrint(n: nat)
    ensures Parse(Print(n)) == n
  {
    WidthFits(n, Width(n));
    ParseDigits(n, Width(n));
  }

  lemma ParsePrint8(n: int)
    ensures Parse(Print8(n)) == n % (WORD * WORD)
    ensures |Print8(n)| == 8 <==> n % (WORD * WORD) < WORD
  {
    var word := n % (WORD * WORD);
    var k := if Width(word) < 8 then 8 else Width(word);
    WidthFits(word, k);
    WidthFits(word, 8);
    ParseDigits(word, k);
    Pow8();
  }

  lemma Pow8()
    ensures Pow16(8) == WORD
  {
    assert Pow16(4) == 0x10000 && Pow16(8) == 16 * 16 * 16 * 16 * Pow16(4);
  }

  lemma {:induction false} ParseBound(s: string)
    requires IsHex(s)
    ensures Parse(s) < Pow16(|s|)
  {
    if s != "" {
      ParseBound(s[..|s| - 1]);
    }
  }

  /** Printing what was read gives the digits. */
  lemma {:induction false} DigitsParse(s: string)
    requires IsHex(s)
    ensures Digits(Parse(s), |s|) == s
  {
    if s != "" {
      DigitsParse(s[..|s| - 1]);
      DigitOfValue(s[|s| - 1]);
      assert s == s[..|s| - 1] + [s[|s| - 1]];
    }
  }

  lemma DigitOfValue(c: char)
    requires IsHexDigit(c)
    ensures Digit(DigitValue(c)) == c
  {
  }

  lemma Print8Parse(s: string)
    requires IsHex(s) && |s| == 8
    ensures Print8(Parse(s)) == s && Parse(s) < WORD
  {
    hide Parse, Digits, Width, Pow16;
    ParseBound(s);
    Pow8();
    WidthFits(Parse(s), 8);
    DigitsParse(s);
    assert Parse(s) % (WORD * WORD) == Parse(s);
  }

  // ---- Order ----------------------------------------------------------------------------------

  /** s sorts before t, both of the same length. */
  ghost predicate LexLess(s: string, t: string)
    requires |s| == |t|
  {
    exists i :: 0 <= i < |s| && s[..i] == t[..i] && s[i] < t[i]
  }

  lemma DigitOrder(c: char, d: char)
    requires IsHexDigit(c) && IsHexDigit(d)
    ensures c < d <==> DigitValue(c) < DigitValue(d)
  {
  }

  lemma LexSnoc(s: string, c: char, t: string, d: char)
    requires |s| == |t|
    ensures LexLess(s + [c], t + [d]) <==> LexLess(s, t) || (s == t && c < d)
  {
    var sc, td := s + [c], t + [d];
    assert sc[..|s|] == s && td[..|t|] == t;
    if LexLess(s, t) {
      var i :| 0 <= i < |s| && s[..i] == t[..i] && s[i] < t[i];
      assert sc[..i] == s[..i] && td[..i] == t[..i];
    }
    if LexLess(sc, td) {
      var i :| 0 <= i < |sc| && sc[..i] == td[..i] && sc[i] < td[i];
      if i < |s| {
        assert sc[..i] == s[..i] && td[..i] == t[..i];
      }
    }
  }

  /** Hexadecimal numbers of one width sort as they count. */
  lemma {:induction false} LexIsOrder(s: string, t: string)
    requires IsHex(s) && IsHex(t) && |s| == |t|
    ensures LexLess(s, t) <==> Parse(s) < Parse(t)
    ensures s == t <==> Parse(s) == Parse(t)
  {
    if s != "" {
      var n := |s| - 1;
      LexIsOrder(s[..n], t[..n]);
      LexSnoc(s[..n], s[n], t[..n], t[n]);
      DigitOrder(s[n], t[n]);
      DigitOrder(t[n], s[n]);
      assert s[..n] + [s[n]] == s && t[..n] + [t[n]] == t;
    }
  }

  // ---- Segments ---------------------------------------------------------------------------------

  /** ^[0-9A-F]{24}$ : timeline, log and segment, eight digits each. */
  predicate IsSegment(name: string) {
    |name| == 24 && IsHex(name)
  }

  function Log(name: string): nat
    requires IsSegment(name)
  {
    Parse(name[8..16])
  }

  function Seg(name: string): nat
    requires IsSegment(name)
  {
    Parse(name[16..24])
  }

  /** The number of the segment, 256 to a log. */
  function Linear(name: string): nat
    requires IsSegment(name)
  {
    Log(name) * 256 + Seg(name)
  }

  /** printf "%s%08X%08X" */
  function Name(timeline: string, log: int, seg: int): string {
    timeline + Print8(log) + Print8(seg)
  }

  /** A printed name denotes the printed numbers, exactly when the log fits its digits. */
  lemma NameDenotes(timeline: string, log: int, seg: int)
    requires |timeline| == 8 && IsHex(timeline) && 0 <= seg < WORD && -WORD <= log < WORD * WORD
    ensures IsSegment(Name(timeline, log, seg)) <==> 0 <= log < WORD
    ensures 0 <= log < WORD ==>
              var name := Name(timeline, log, seg);
              name[..8] == timeline && Log(name) == log && Seg(name) == seg
  {
    hide Print8;
    var name := Name(timeline, log, seg);
    ParsePrint8(log);
    ParsePrint8(seg);
    assert seg % (WORD * WORD) == seg;
    if log >= 0 {
      assert log % (WORD * WORD) == log;
    } else {
      assert log % (WORD * WORD) == log + WORD * WORD;
    }
    if 0 <= log < WORD {
      assert name[..8] == timeline && name[8..16] == Print8(log) && name[16..24] == Print8(seg);
    }
  }

  /** The name is printed back from its parts. */
  lemma NameOfParts(name: string)
    requires IsSegment(name)
    ensures Name(name[..8], Log(name), Seg(name)) == name
    ensures Log(name) < WORD && Seg(name) < WORD
  {
    hide Print8;
    Print8Parse(name[8..16]);
    Print8Parse(name[16..24]);
    assert name == name[..8] + name[8..16] + name[16..24];
  }

  /** The i-th name after a segment, counted from 0. */
  function Next(segment: string, i: nat): string
    requires IsSegment(segment)
  {
    Name(segment[..8], Log(segment) + (Seg(segment) + i + 1) / 256, (Seg(segment) + i + 1) % 256)
  }

  /** generate_next_segments */
  method GenerateNextSegments(segment: string, count: int) returns (names: seq<string>)
    requires IsSegment(segment)
    ensures |names| == if count > 0 then count else 0
    ensures forall i :: 0 <= i < |names| ==> names[i] == Next(segment, i)
  {
    hide Name;
    var num, timeline, log, seg := count, segment[..8], Log(segment), Seg(segment);
    names := [];
    while num > 0
      invariant |names| == (if count > 0 then count else 0) - (if num > 0 then num else 0)
      invariant seg == Seg(segment) + |names|
      invariant forall i :: 0 <= i < |names| ==> names[i] == Next(segment, i)
      decreases num
    {
      num := num - 1;
      seg := seg + 1;
      names := names + [Name(timeline, log + seg / 256, seg % 256)];
    }
  }

  /** The i-th name is the segment i + 1 further on, while the log fits its digits. */
  lemma NextIsSuccessor(segment: string, i: nat)
    requires IsSegment(segment) && Linear(segment) + i + 1 < 256 * WORD * WORD
    ensures IsSegment(Next(segment, i)) <==> Linear(segment) + i + 1 < 256 * WORD
    ensures IsSegment(Next(segment, i)) ==>
              && Linear(Next(segment, i)) == Linear(segment) + i + 1
              && Next(segment, i)[..8] == segment[..8]
              && Seg(Next(segment, i)) < 256
  {
    hide Name, Parse;
    NameOfParts(segment);
    var n := Seg(segment) + i + 1;
    NameDenotes(segment[..8], Log(segment) + n / 256, n % 256);
  }

  /** Segments of one timeline whose segment number is in range sort as they count. */
  lemma SortsAsLinear(s: string, t: string)
    requires IsSegment(s) && IsSegment(t) && s[..8] == t[..8] && Seg(s) < 256 && Seg(t) < 256
    ensures LexLess(s, t) <==> Linear(s) < Linear(t)
    ensures s == t <==> Linear(s) == Linear(t)
  {
    hide Parse;
    LexIsOrder(s[8..16], t[8..16]);
    LexIsOrder(s[16..24], t[16..24]);
    assert s == s[..8] + s[8..16] + s[16..24] && t == t[..8] + t[8..16] + t[16..24];
    LexConcat(s[..8], s[8..16] + s[16..24], t[8..16] + t[16..24]);
    LexParts(s[8..16], s[16..24], t[8..16], t[16..24]);
    assert s == s[..8] + (s[8..16] + s[16..24]) && t == t[..8] + (t[8..16] + t[16..24]);
  }

  lemma LexConcat(p: string, s: string, t: string)
    requires |s| == |t|
    ensures LexLess(p + s, p + t) <==> LexLess(s, t)
  {
    var ps, pt := p + s, p + t;
    if LexLess(s, t) {
      var i :| 0 <= i < |s| && s[..i] == t[..i] && s[i] < t[i];
      assert ps[..|p| + i] == p + s[..i] && pt[..|p| + i] == p + t[..i];
      assert ps[|p| + i] == s[i] && pt[|p| + i] == t[i];
    }
    if LexLess(ps, pt) {
      var i :| 0 <= i < |ps| && ps[..i] == pt[..i] && ps[i] < pt[i];
      assert i >= |p|;
      var j := i - |p|;
      assert s[..j] == ps[..i][|p|..] && t[..j] == pt[..i][|p|..];
      assert s[j] == ps[i] && t[j] == pt[i];
    }
  }

  lemma LexParts(s1: string, s2: string, t1: string, t2: string)
    requires |s1| == |t1| && |s2| == |t2|
    ensures LexLess(s1 + s2, t1 + t2) <==> LexLess(s1, t1) || (s1 == t1 && LexLess(s2, t2))
  {
    var s, t := s1 + s2, t1 + t2;
    if s1 == t1 {
      LexConcat(s1, s2, t2);
      NotLess(s1);
    }
    if LexLess(s1, t1) {
      var i :| 0 <= i < |s1| && s1[..i] == t1[..i] && s1[i] < t1[i];
      assert s[..i] == s1[..i] && t[..i] == t1[..i];
    }
    if LexLess(s, t) {
      var i :| 0 <= i < |s| && s[..i] == t[..i] && s[i] < t[i];
      if i < |s1| {
        assert s[..i] == s1[..i] && t[..i] == t1[..i];
      } else {
        assert s1 == s[..i][..|s1|] && t1 == t[..i][..|s1|];
      }
    }
  }

  lemma NotLess(s: string)
    ensures !LexLess(s, s)
  {
  }

  /** The names generated are distinct and in order, byte by byte, each one segment
      after the one before and the first one after the segment given. */
  lemma NextInOrder(segment: string, i: nat, j: nat)
    requires IsSegment(segment) && i < j && Linear(segment) + j + 1 < 256 * WORD
    ensures Next(segment, i) != Next(segment, j)
    ensures IsSegment(Next(segment, i)) && IsSegment(Next(segment, j)) && LexLess(Next(segment, i), Next(segment, j))
    ensures Seg(segment) < 256 ==> LexLess(segment, Next(segment, i))
  {
    hide Name, LexLess, Log, Seg;
    NextIsSuccessor(segment, i);
    NextIsSuccessor(segment, j);
    SortsAsLinear(Next(segment, i), Next(segment, j));
    if Seg(segment) < 256 {
      SortsAsLinear(segment, Next(segment, i));
    }
  }

  // ---- The segment before ---------------------------------------------------------------------------

  /** start_receivewal: the name of the previous segment. */
  method Predecessor(segment: string) returns (previous: string)
    requires IsSegment(segment)
    ensures previous == Before(segment)
    ensures IsSegment(previous) <==> Linear(segment) > 0
    ensures Linear(segment) > 0 ==> Linear(previous) == Linear(segment) - 1 && previous[..8] == segment[..8]
  {
    hide Name, Parse;
    BeforeIsPredecessor(segment);
    var timeline := segment[..8];
    var log: int, seg: int := Log(segment), Seg(segment);
    if seg == 0 {
      seg := 255;
      log := log - 1;
    } else {
      seg := seg - 1;
    }
    previous := Name(timeline, log, seg);
  }

  function Before(segment: string): string
    requires IsSegment(segment)
  {
    if Seg(segment) == 0 then Name(segment[..8], Log(segment) - 1, 255)
    else Name(segment[..8], Log(segment), Seg(segment) - 1)
  }

  /** The previous name is the segment before, except for the very first segment, whose
      previous name is no segment name at all. */
  lemma BeforeIsPredecessor(segment: string)
    requires IsSegment(segment)
    ensures IsSegment(Before(segment)) <==> Linear(segment) > 0
    ensures Linear(segment) > 0 ==>
              Linear(Before(segment)) == Linear(segment) - 1 && Before(segment)[..8] == segment[..8]
  {
    hide Name, Parse;
    NameOfParts(segment);
    if Seg(segment) == 0 {
      NameDenotes(segment[..8], Log(segment) - 1, 255);
    } else {
      NameDenotes(segment[..8], Log(segment), Seg(segment) - 1);
    }
  }

  /** Going one segment on and back returns to the name, exactly when it was in range. */
  lemma BeforeNext(segment: string)
    requires IsSegment(segment) && Linear(segment) + 1 < 256 * WORD
    ensures IsSegment(Next(segment, 0))
    ensures Before(Next(segment, 0)) == segment <==> Seg(segment) < 256
  {
    hide Name, Parse;
    NextIsSuccessor(segment, 0);
    var next := Next(segment, 0);
    BeforeIsPredecessor(next);
    NameOfParts(segment);
    NameOfParts(next);
    var n := Seg(segment) + 1;
    NameDenotes(segment[..8], Log(segment) + n / 256, n % 256);
    if Seg(segment) < 256 {
      assert Log(next) == Log(segment) + n / 256 && Seg(next) == n % 256;
    } else {
      SegBefore(next);
    }
  }

  lemma SegBefore(segment: string)
    requires IsSegment(segment) && Linear(segment) > 0 && Seg(segment) < 256
    ensures IsSegment(Before(segment)) && Seg(Before(segment)) < 256
  {
    hide Name, Parse;
    NameOfParts(segment);
    if Seg(segment) == 0 {
      NameDenotes(segment[..8], Log(segment) - 1, 255);
    } else {
      NameDenotes(segment[..8], Log(segment), Seg(segment) - 1);
    }
  }

  // ---- The position a backup starts at -----------------------------------------------------------------

  /** printf "%X/%X" of the log and the segment shifted by 24 bits. */
  function StartLsn(name: string): string
    requires IsSegment(name)
  {
    Print(Log(name)) + "/" + Print(Seg(name) * 0x100_0000)
  }

  /** How PostgreSQL reads a position: two hexadecimal numbers of at most eight digits. */
  function ReadLsn(s: string): int {
    var i := IndexOf(s, '/');
    if i == |s| then -1
    else
      var high, low := s[..i], s[i + 1..];
      if IsHex(high) && IsHex(low) && 1 <= |high| <= 8 && 1 <= |low| <= 8 then Parse(high) * WORD + Parse(low) else -1
  }

  /** The position printed is the byte at which the segment starts, and is readable
      exactly when the segment number is in range. */
  lemma StartLsnIsOffset(name: string)
    requires IsSegment(name)
    ensures ReadLsn(StartLsn(name)) == if Seg(name) < 256 then Linear(name) * 0x100_0000 else -1
  {
    hide Parse, Print, IndexOf, Pow16;
    var low := Seg(name) * 0x100_0000;
    NameOfParts(name);
    PrintWidth(Log(name));
    PrintWidth(low);
    ParsePrint(Log(name));
    ParsePrint(low);
    NoSlash(Print(Log(name)));
    IndexAt(Print(Log(name)), '/', Print(low));
    var s := StartLsn(name);
    assert s[..|Print(Log(name))|] == Print(Log(name)) && s[|Print(Log(name))| + 1..] == Print(low);
  }

  lemma NoSlash(s: string)
    requires IsHex(s)
    ensures '/' !in s
  {
  }

  lemma PrintWidth(n: nat)
    ensures |Print(n)| >= 1
    ensures |Print(n)| <= 8 <==> n < WORD
  {
    WidthFits(n, 8);
    Pow8();
  }

  /** Later segments start at higher positions. */
  lemma StartLsnMonotone(s: string, t: string)
    requires IsSegment(s) && IsSegment(t) && Seg(s) < 256 && Seg(t) < 256
    ensures ReadLsn(StartLsn(s)) < ReadLsn(StartLsn(t)) <==> Linear(s) < Linear(t)
    ensures s[..8] == t[..8] ==> (ReadLsn(StartLsn(s)) < ReadLsn(StartLsn(t)) <==> LexLess(s, t))
  {
    hide StartLsn, LexLess, Parse, ReadLsn;
    StartLsnIsOffset(s);
    StartLsnIsOffset(t);
    if s[..8] == t[..8] {
      SortsAsLinear(s, t);
    }
  }
}
