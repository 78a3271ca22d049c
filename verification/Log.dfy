/**
 * The log file as text: lines, what recovery reads back from them, torn and glued tails
 * (pkg/storage/wal.go:171-311).
 */
module Log {
  import opened Model
  import opened Picking
  import opened Codec

  // ---------- Lines ----------

  /** The pieces between newlines; there is always at least one (bytes.Split). */
  function Split(s: string): (parts: seq<string>)
    ensures parts != []
  {
    if s == "" then [""]
    else
      var rest := Split(s[1..]);
      if s[0] == '\n' then [""] + rest
      else [[s[0]] + rest[0]] + rest[1..]
  }

  /** The pieces with a newline between any two. */
  function Lined(parts: seq<string>): string
    requires parts != []
  {
    if |parts| == 1 then parts[0] else parts[0] + "\n" + Lined(parts[1..])
  }

  /** No piece holds a newline, and with newlines between them the pieces are the text. */
  lemma {:induction false} SplitIsUndone(s: string)
    ensures Lined(Split(s)) == s
    ensures forall i :: 0 <= i < |Split(s)| ==> '\n' !in Split(s)[i]
  {
    if s != "" {
      var rest := Split(s[1..]);
      SplitIsUndone(s[1..]);
      assert s == [s[0]] + s[1..];
      if s[0] == '\n' {
        assert ([""] + rest)[1..] == rest;
        assert "" + "\n" + Lined(rest) == [s[0]] + s[1..];
      } else {
        var parts := [[s[0]] + rest[0]] + rest[1..];
        assert parts[1..] == rest[1..];
        LongerFirst(s[0], rest);
      }
    }
  }

  lemma LongerFirst(ch: char, rest: seq<string>)
    requires rest != []
    ensures Lined([[ch] + rest[0]] + rest[1..]) == [ch] + Lined(rest)
  {
    var parts := [[ch] + rest[0]] + rest[1..];
    assert parts[1..] == rest[1..];
    if |rest| > 1 {
      assert ([ch] + rest[0]) + "\n" + Lined(rest[1..]) == [ch] + (rest[0] + "\n" + Lined(rest[1..]));
    } else {
      assert parts[0] == [ch] + rest[0];
    }
  }

  /** Lines as bufio.Scanner yields them: nothing is made of what follows the last newline if empty. */
  function ScanLines(s: string): seq<string> {
    var parts := Split(s);
    if parts[|parts| - 1] == "" then parts[..|parts| - 1] else parts
  }

  /** Nothing is left over after the last newline. */
  predicate NewlineEnded(s: string) {
    s == "" || s[|s| - 1] == '\n'
  }

  /** The pieces of a concatenation: the last of one is joined to the first of the other. */
  function Join(p: seq<string>, q: seq<string>): seq<string>
    requires p != [] && q != []
  {
    p[..|p| - 1] + [p[|p| - 1] + q[0]] + q[1..]
  }

  lemma JoinAtEmpty(p: seq<string>, q: seq<string>)
    requires p != [] && q != [] && p[|p| - 1] == ""
    ensures Join(p, q) == p[..|p| - 1] + q
  {
    assert "" + q[0] == q[0];
    assert [q[0]] + q[1..] == q;
  }

  lemma JoinAfterEmpty(p: seq<string>, q: seq<string>)
    requires p != [] && q != []
    ensures Join([""] + p, q) == [""] + Join(p, q)
  {
  }

  lemma JoinAfterChar(c: char, p: seq<string>, q: seq<string>)
    requires p != [] && q != []
    ensures Join([[c] + p[0]] + p[1..], q) == [[c] + Join(p, q)[0]] + Join(p, q)[1..]
  {
    if |p| == 1 {
      assert [c] + p[0] + q[0] == [c] + (p[0] + q[0]);
    }
  }

  lemma {:induction false} SplitConcat(a: string, b: string)
    ensures Split(a + b) == Join(Split(a), Split(b))
  {
    if a == "" {
      assert a + b == b;
      JoinAtEmpty([""], Split(b));
    } else {
      var ab := a + b;
      assert ab[1..] == a[1..] + b && ab[0] == a[0];
      SplitConcat(a[1..], b);
      JoinAfterEmpty(Split(a[1..]), Split(b));
      JoinAfterChar(a[0], Split(a[1..]), Split(b));
    }
  }

  lemma {:induction false} SplitPlain(s: string)
    requires '\n' !in s
    ensures Split(s) == [s]
  {
    if s != "" {
      assert s == [s[0]] + s[1..];
      SplitPlain(s[1..]);
    }
  }

  lemma {:induction false} SplitEndsEmpty(s: string)
    ensures Split(s)[|Split(s)| - 1] == "" <==> NewlineEnded(s)
  {
    if s != "" {
      SplitEndsEmpty(s[1..]);
    }
  }

  // ---------- What recovery reads, for any codec ----------

  /** A line that recovery cannot skip and cannot decode. */
  predicate Bad(c: RecordCodec, line: string) {
    line != "" && c.decode(line) == None
  }

  function FirstBad(c: RecordCodec, lines: seq<string>): (r: Option<nat>)
    ensures r.Some? ==> r.value < |lines| && Bad(c, lines[r.value])
                        && forall j :: 0 <= j < r.value ==> !Bad(c, lines[j])
    ensures r.None? ==> forall j :: 0 <= j < |lines| ==> !Bad(c, lines[j])
  {
    if lines == [] then None
    else
      var n := |lines| - 1;
      match FirstBad(c, lines[..n])
      case Some(i) => Some(i)
      case None => if Bad(c, lines[n]) then Some(n) else None
  }

  /** The record in a line, if it is not blank and decodes. */
  function RecordIn(c: RecordCodec, line: string): seq<Record> {
    if line == "" then []
    else
      match c.decode(line)
      case None => []
      case Some(r) => [r]
  }

  function Records(c: RecordCodec, lines: seq<string>): seq<Record> {
    if lines == [] then []
    else Records(c, lines[..|lines| - 1]) + RecordIn(c, lines[|lines| - 1])
  }

  /** The whole-file rule: a bad line is an error, by its number, unless it is the last one. */
  function Scan(c: RecordCodec, lines: seq<string>): Result<seq<Record>, nat> {
    if lines == [] then Ok([])
    else
      match FirstBad(c, lines[..|lines| - 1])
      case Some(i) => Err(i + 1)
      case None => Ok(Records(c, lines))
  }

  function ReadBack(c: RecordCodec, file: string): Result<seq<Record>, nat> {
    Scan(c, ScanLines(file))
  }

  lemma OneMoreLine(c: RecordCodec, lines: seq<string>, line: string)
    ensures Records(c, lines + [line]) == Records(c, lines) + RecordIn(c, line)
    ensures FirstBad(c, lines) == None ==> Scan(c, lines + [line]) == Ok(Records(c, lines) + RecordIn(c, line))
    ensures FirstBad(c, lines) == None && !Bad(c, line) ==> FirstBad(c, lines + [line]) == None
    ensures FirstBad(c, lines) == None && Bad(c, line) ==> FirstBad(c, lines + [line]) == Some(|lines|)
  {
    assert (lines + [line])[..|lines|] == lines;
  }

  /** rs are the records in the lines that are not blank and decode, in order; at tells which lines. */
  ghost predicate ReadFrom(c: RecordCodec, lines: seq<string>, rs: seq<Record>, at: seq<nat>) {
    && |at| == |rs|
    && (forall k :: 0 <= k < |at| ==> at[k] < |lines| && lines[at[k]] != "" && c.decode(lines[at[k]]) == Some(rs[k]))
    && (forall k, l :: 0 <= k < l < |at| ==> at[k] < at[l])
    && (forall i :: 0 <= i < |lines| && lines[i] != "" && c.decode(lines[i]).Some? ==> i in at)
  }

  lemma RecordsArePicked(c: RecordCodec, lines: seq<string>) returns (at: seq<nat>)
    ensures ReadFrom(c, lines, Records(c, lines), at)
  {
    at := PickRecords(c, line => if line == "" then None else c.decode(line), lines);
  }

  lemma {:induction false} PickRecords(c: RecordCodec, value: string -> Option<Record>, lines: seq<string>) returns (at: seq<nat>)
    requires forall line :: value(line) == if line == "" then None else c.decode(line)
    ensures Picks(lines, value, Records(c, lines), at)
  {
    at := [];
    if lines != [] {
      var init, line := lines[..|lines| - 1], lines[|lines| - 1];
      at := PickRecords(c, value, init);
      assert lines == init + [line];
      at := PickOneRecord(c, value, init, line, at);
    }
  }

  lemma PickOneRecord(c: RecordCodec, value: string -> Option<Record>, init: seq<string>, line: string, at: seq<nat>) returns (at': seq<nat>)
    requires Picks(init, value, Records(c, init), at) && value(line) == if line == "" then None else c.decode(line)
    ensures Picks(init + [line], value, Records(c, init + [line]), at')
  {
    PicksOneMore(init, line, value, Records(c, init), at);
    OneMoreLine(c, init, line);
    assert Records(c, init) + [] == Records(c, init);
    at' := if value(line).Some? then at + [|init|] else at;
  }

  /**
   * The rule for a whole file, in full: it fails at the first line that is neither blank nor decodable, if
   * that is not the last one; otherwise it gives the records of the decodable lines, in order.
   */
  lemma ScanRule(c: RecordCodec, lines: seq<string>) returns (at: seq<nat>)
    ensures forall k :: Scan(c, lines) == Err(k) <==>
              && 1 <= k < |lines| && lines[k - 1] != "" && c.decode(lines[k - 1]) == None
              && forall j :: 0 <= j < k - 1 ==> lines[j] == "" || c.decode(lines[j]).Some?
    ensures Scan(c, lines).Ok? ==> ReadFrom(c, lines, Scan(c, lines).value, at)
  {
    at := RecordsArePicked(c, lines);
    if lines != [] {
      var init := lines[..|lines| - 1];
      assert forall j :: 0 <= j < |init| ==> init[j] == lines[j];
    }
  }

  // ---------- Logs the writer makes ----------

  function Line(c: RecordCodec, r: Record): string {
    c.encode(r) + "\n"
  }

  /** A log of whole records. */
  function LogText(c: RecordCodec, rs: seq<Record>): string {
    if rs == [] then "" else LogText(c, rs[..|rs| - 1]) + Line(c, rs[|rs| - 1])
  }

  lemma LogTextAppend(c: RecordCodec, rs: seq<Record>, r: Record)
    ensures LogText(c, rs + [r]) == LogText(c, rs) + Line(c, r)
  {
    assert (rs + [r])[..|rs|] == rs;
  }

  lemma LogTextIsNewlineEnded(c: RecordCodec, rs: seq<Record>)
    ensures NewlineEnded(LogText(c, rs))
  {
  }

  lemma ScanLinesConcat(file: string, tail: string)
    requires NewlineEnded(file) && '\n' !in tail
    ensures ScanLines(file + tail) == ScanLines(file) + if tail == "" then [] else [tail]
    ensures ScanLines(file + (tail + "\n")) == ScanLines(file) + [tail]
  {
    var p := Split(file);
    SplitEndsEmpty(file);
    SplitPlain(tail);
    SplitConcat(file, tail);
    JoinAtEmpty(p, [tail]);
    SplitLine(tail);
    SplitConcat(file, tail + "\n");
    JoinAtEmpty(p, [tail, ""]);
    assert (p[..|p| - 1] + [tail, ""])[..|p|] == p[..|p| - 1] + [tail];
  }

  lemma {:induction false} SplitLine(s: string)
    requires '\n' !in s
    ensures Split(s + "\n") == [s, ""]
  {
    if s == "" {
      assert (s + "\n")[1..] == "";
    } else {
      assert (s + "\n")[1..] == s[1..] + "\n";
      assert s == [s[0]] + s[1..];
      SplitLine(s[1..]);
    }
  }

  function EncodedLines(c: RecordCodec, rs: seq<Record>): seq<string> {
    if rs == [] then [] else EncodedLines(c, rs[..|rs| - 1]) + [c.encode(rs[|rs| - 1])]
  }

  /** One to a record, as it was written. */
  lemma {:induction false} EncodedLinesAre(c: RecordCodec, rs: seq<Record>)
    ensures |EncodedLines(c, rs)| == |rs|
    ensures forall i :: 0 <= i < |rs| ==> EncodedLines(c, rs)[i] == c.encode(rs[i])
  {
    if rs != [] {
      EncodedLinesAre(c, rs[..|rs| - 1]);
    }
  }

  lemma {:induction false} LinesOfLog(c: RecordCodec, rs: seq<Record>)
    requires c.Sound()
    ensures ScanLines(LogText(c, rs)) == EncodedLines(c, rs)
  {
    if rs != [] {
      var before, r := rs[..|rs| - 1], rs[|rs| - 1];
      LinesOfLog(c, before);
      LogTextIsNewlineEnded(c, before);
      ScanLinesConcat(LogText(c, before), c.encode(r));
    } else {
      assert ScanLines("") == [];
    }
  }

  lemma {:induction false} EncodedLinesRead(c: RecordCodec, rs: seq<Record>)
    requires c.Sound()
    ensures Records(c, EncodedLines(c, rs)) == rs
    ensures FirstBad(c, EncodedLines(c, rs)) == None
    ensures |EncodedLines(c, rs)| == |rs|
  {
    if rs != [] {
      var before, r := rs[..|rs| - 1], rs[|rs| - 1];
      EncodedLinesRead(c, before);
      EncodedLineReads(c, r);
      OneMoreIsRead(c, EncodedLines(c, before), before, c.encode(r), r);
      assert rs == before + [r];
    }
  }

  lemma OneMoreIsRead(c: RecordCodec, lines: seq<string>, rs: seq<Record>, line: string, r: Record)
    requires Records(c, lines) == rs && FirstBad(c, lines) == None && |lines| == |rs|
    requires RecordIn(c, line) == [r] && !Bad(c, line)
    ensures Records(c, lines + [line]) == rs + [r] && FirstBad(c, lines + [line]) == None
  {
    OneMoreLine(c, lines, line);
  }

  /** A log of whole records is read back as those records, with no bad line. */
  lemma LogTextReadsBack(c: RecordCodec, rs: seq<Record>)
    requires c.Sound()
    ensures Records(c, ScanLines(LogText(c, rs))) == rs
    ensures FirstBad(c, ScanLines(LogText(c, rs))) == None
    ensures |ScanLines(LogText(c, rs))| == |rs|
  {
    LinesOfLog(c, rs);
    EncodedLinesRead(c, rs);
  }

  lemma EncodedLineReads(c: RecordCodec, r: Record)
    requires c.Sound()
    ensures '\n' !in c.encode(r) && c.encode(r) != ""
    ensures RecordIn(c, c.encode(r)) == [r] && !Bad(c, c.encode(r))
  {
    var q := r.(v := r.v + 1);
    assert c.decode(c.encode(r)) == Some(r) && c.decode(c.encode(q)) == Some(q);
    assert c.encode(q)[..0] == "";
    assert c.encode(q) != "" ==> c.decode(c.encode(q)[..0]) == None;
  }

  /** A left-over tail counts if it decodes and is ignored if it does not. */
  lemma TailReadsBack(c: RecordCodec, rs: seq<Record>, tail: string)
    requires c.Sound() && '\n' !in tail
    ensures ReadBack(c, LogText(c, rs) + tail) == Ok(rs + RecordIn(c, tail))
  {
    var lines := ScanLines(LogText(c, rs));
    LogTextReadsBack(c, rs);
    LogTextIsNewlineEnded(c, rs);
    ScanLinesConcat(LogText(c, rs), tail);
    if tail == "" {
      assert lines + [] == lines && rs + [] == rs;
      WholeScan(c, lines);
    } else {
      OneMoreLine(c, lines, tail);
    }
  }

  lemma WholeScan(c: RecordCodec, lines: seq<string>)
    requires FirstBad(c, lines) == None
    ensures Scan(c, lines) == Ok(Records(c, lines))
  {
  }

  // ---------- Torn writes ----------

  /** How many records lie wholly before the cut, counting one that lacks only its newline. */
  function WholeBefore(c: RecordCodec, rs: seq<Record>, cut: nat): (m: nat)
    ensures m <= |rs|
  {
    if rs == [] then 0
    else
      var n := |rs| - 1;
      if |LogText(c, rs[..n])| + |c.encode(rs[n])| <= cut then |rs| else WholeBefore(c, rs[..n], cut)
  }

  lemma AllBefore(c: RecordCodec, rs: seq<Record>, cut: nat)
    requires |LogText(c, rs)| <= cut
    ensures WholeBefore(c, rs, cut) == |rs|
  {
  }

  /** A cut after all but the last record: that one counts when at most its newline is missing. */
  lemma CutInLast(c: RecordCodec, rs: seq<Record>, r: Record, cut: nat)
    requires c.Sound() && cut <= |c.encode(r)|
    ensures var kept := if cut == |c.encode(r)| then rs + [r] else rs;
            ReadBack(c, LogText(c, rs) + c.encode(r)[..cut]) == Ok(kept)
  {
    var tail := c.encode(r)[..cut];
    EncodedLineReads(c, r);
    TailReadsBack(c, rs, tail);
    if cut == |c.encode(r)| {
      assert tail == c.encode(r);
    } else {
      assert c.decode(tail) == None;
      assert rs + [] == rs;
    }
  }

  /**
   * Wherever a log of whole records is cut, recovery succeeds and reads exactly the records wholly
   * before the cut.
   */
  lemma AnyCutReadsWholeRecords(c: RecordCodec, rs: seq<Record>, cut: nat)
    requires c.Sound() && cut <= |LogText(c, rs)|
    ensures ReadBack(c, LogText(c, rs)[..cut]) == Ok(rs[..WholeBefore(c, rs, cut)])
  {
    CutReadsWhole(c, rs, cut);
  }

  /** Cut there, if the log is so long, it reads as the records wholly before the cut. */
  ghost predicate ReadsWhole(c: RecordCodec, rs: seq<Record>, cut: nat) {
    cut <= |LogText(c, rs)| ==> ReadBack(c, LogText(c, rs)[..cut]) == Ok(rs[..WholeBefore(c, rs, cut)])
  }

  lemma {:induction false} CutReadsWhole(c: RecordCodec, rs: seq<Record>, cut: nat)
    requires c.Sound()
    ensures ReadsWhole(c, rs, cut)
  {
    if rs == [] {
      NothingToCut(c, cut);
    } else {
      CutReadsWhole(c, rs[..|rs| - 1], cut);
      CutOneMore(c, rs[..|rs| - 1], rs[|rs| - 1], cut);
      assert rs == rs[..|rs| - 1] + [rs[|rs| - 1]];
    }
  }

  lemma NothingToCut(c: RecordCodec, cut: nat)
    requires c.Sound()
    ensures ReadsWhole(c, [], cut)
  {
    if cut <= |LogText(c, [])| {
      CutAfterAll(c, []);
    }
  }

  lemma CutOneMore(c: RecordCodec, before: seq<Record>, r: Record, cut: nat)
    requires c.Sound() && ReadsWhole(c, before, cut)
    ensures ReadsWhole(c, before + [r], cut)
  {
    if cut <= |LogText(c, before)| {
      CutIsEarlier(c, before, r, cut);
    } else if cut < |LogText(c, before + [r])| {
      CutWithinLast(c, before, r, cut);
    } else if cut == |LogText(c, before + [r])| {
      CutAfterAll(c, before + [r]);
    }
  }

  lemma CutIsEarlier(c: RecordCodec, before: seq<Record>, r: Record, cut: nat)
    requires c.Sound() && cut <= |LogText(c, before)|
    requires ReadBack(c, LogText(c, before)[..cut]) == Ok(before[..WholeBefore(c, before, cut)])
    ensures ReadBack(c, LogText(c, before + [r])[..cut]) == Ok((before + [r])[..WholeBefore(c, before + [r], cut)])
  {
    CutBeforeLast(c, before, r, cut);
  }

  lemma CutBeforeLast(c: RecordCodec, before: seq<Record>, r: Record, cut: nat)
    requires c.Sound() && cut <= |LogText(c, before)|
    ensures LogText(c, before + [r])[..cut] == LogText(c, before)[..cut]
    ensures WholeBefore(c, before + [r], cut) == WholeBefore(c, before, cut)
    ensures (before + [r])[..WholeBefore(c, before, cut)] == before[..WholeBefore(c, before, cut)]
  {
    LogTextAppend(c, before, r);
    EncodedLineReads(c, r);
    assert (before + [r])[..|before|] == before;
  }

  lemma CutWithinLast(c: RecordCodec, before: seq<Record>, r: Record, cut: nat)
    requires c.Sound() && |LogText(c, before)| < cut < |LogText(c, before + [r])|
    ensures ReadBack(c, LogText(c, before + [r])[..cut])
         == Ok((before + [r])[..WholeBefore(c, before + [r], cut)])
  {
    var text, rs := LogText(c, before), before + [r];
    LogTextAppend(c, before, r);
    assert rs[..|before|] == before;
    var k := cut - |text|;
    assert LogText(c, rs)[..cut] == text + c.encode(r)[..k];
    CutInLast(c, before, r, k);
    AllBefore(c, before, cut);
    assert rs[..|rs|] == rs;
    assert WholeBefore(c, rs, cut) == if k == |c.encode(r)| then |rs| else |before|;
  }

  lemma CutAfterAll(c: RecordCodec, rs: seq<Record>)
    requires c.Sound()
    ensures ReadBack(c, LogText(c, rs)[..|LogText(c, rs)|])
         == Ok(rs[..WholeBefore(c, rs, |LogText(c, rs)|)])
  {
    assert LogText(c, rs)[..|LogText(c, rs)|] == LogText(c, rs) + "";
    TailReadsBack(c, rs, "");
    AllBefore(c, rs, |LogText(c, rs)|);
    assert rs + [] == rs && rs[..|rs|] == rs;
  }

  // ---------- Glued tails ----------

  /**
   * What a restart over a torn tail leads to. Recovery leaves the tail in the file, so the next
   * record is written straight after it. The record is read back if and only if there was no tail:
   * with one, the glued line is dropped together with the record and with whatever the tail still
   * held, and once another record follows it recovery fails at that line.
   */
  lemma AppendAfterTail(c: RecordCodec, rs: seq<Record>, torn: Record, k: nat, r: Record, next: Record)
    requires c.Sound() && k <= |c.encode(torn)|
    ensures var file := LogText(c, rs) + c.encode(torn)[..k];
            && (ReadBack(c, file + Line(c, r)) == Ok(rs + [r]) <==> NewlineEnded(file))
            && (NewlineEnded(file) <==> k == 0)
            && (k > 0 ==> ReadBack(c, file + Line(c, r)) == Ok(rs))
            && (k > 0 ==> ReadBack(c, file + Line(c, r) + Line(c, next)) == Err(|rs| + 1))
  {
    var file := LogText(c, rs) + c.encode(torn)[..k];
    LogTextIsNewlineEnded(c, rs);
    if k == 0 {
      assert file == LogText(c, rs);
      AppendReadsBack(c, rs, r);
    } else {
      TornIsNotNewlineEnded(c, LogText(c, rs), torn, k);
      AppendIsGlued(c, rs, torn, k, r, next);
    }
  }

  lemma AppendReadsBack(c: RecordCodec, rs: seq<Record>, r: Record)
    requires c.Sound()
    ensures ReadBack(c, LogText(c, rs) + Line(c, r)) == Ok(rs + [r])
  {
    LogTextAppend(c, rs, r);
    LogTextReadsBack(c, rs + [r]);
    WholeScan(c, ScanLines(LogText(c, rs + [r])));
  }

  lemma TornIsNotNewlineEnded(c: RecordCodec, text: string, torn: Record, k: nat)
    requires c.Sound() && 0 < k <= |c.encode(torn)|
    ensures !NewlineEnded(text + c.encode(torn)[..k])
  {
    assert (text + c.encode(torn)[..k])[|text| + k - 1] == c.encode(torn)[k - 1];
  }

  lemma AppendIsGlued(c: RecordCodec, rs: seq<Record>, torn: Record, k: nat, r: Record, next: Record)
    requires c.Sound() && 0 < k <= |c.encode(torn)|
    ensures var file := LogText(c, rs) + c.encode(torn)[..k];
            && ReadBack(c, file + Line(c, r)) == Ok(rs)
            && ReadBack(c, file + Line(c, r) + Line(c, next)) == Err(|rs| + 1)
  {
    var text, tail := LogText(c, rs), c.encode(torn)[..k];
    var glued := tail + c.encode(r);
    LogTextReadsBack(c, rs);
    LogTextIsNewlineEnded(c, rs);
    GluedIsOneBadLine(c, torn, k, r);
    EncodedLineReads(c, next);
    GluedLineReads(c, text, glued, c.encode(next));
    GluedParenthesised(text, tail, c.encode(r), c.encode(next));
  }

  lemma GluedIsOneBadLine(c: RecordCodec, torn: Record, k: nat, r: Record)
    requires c.Sound() && 0 < k <= |c.encode(torn)|
    ensures var glued := c.encode(torn)[..k] + c.encode(r);
            glued != "" && '\n' !in glued && c.decode(glued) == None
  {
    EncodedLineReads(c, torn);
    EncodedLineReads(c, r);
  }

  lemma GluedParenthesised(text: string, tail: string, line: string, next: string)
    ensures text + tail + (line + "\n") == text + (tail + line + "\n")
    ensures text + tail + (line + "\n") + (next + "\n") == text + (tail + line + "\n") + (next + "\n")
  {
  }

  lemma GluedLineReads(c: RecordCodec, text: string, glued: string, next: string)
    requires NewlineEnded(text) && FirstBad(c, ScanLines(text)) == None
    requires glued != "" && '\n' !in glued && c.decode(glued) == None && '\n' !in next
    ensures ReadBack(c, text + (glued + "\n")) == Ok(Records(c, ScanLines(text)))
    ensures ReadBack(c, text + (glued + "\n") + (next + "\n")) == Err(|ScanLines(text)| + 1)
  {
    GluedLines(text, glued, next);
    GluedScan(c, ScanLines(text), glued, next);
  }

  lemma GluedLines(text: string, glued: string, next: string)
    requires NewlineEnded(text) && '\n' !in glued && '\n' !in next
    ensures ScanLines(text + (glued + "\n")) == ScanLines(text) + [glued]
    ensures ScanLines(text + (glued + "\n") + (next + "\n")) == ScanLines(text) + [glued] + [next]
  {
    ScanLinesConcat(text, glued);
    ScanLinesConcat(text + (glued + "\n"), next);
  }

  lemma GluedScan(c: RecordCodec, lines: seq<string>, glued: string, next: string)
    requires FirstBad(c, lines) == None && Bad(c, glued)
    ensures Scan(c, lines + [glued]) == Ok(Records(c, lines))
    ensures Scan(c, lines + [glued] + [next]) == Err(|lines| + 1)
  {
    GluedIsIgnored(c, lines, glued);
    GluedIsTheFirstBad(c, lines, glued);
    BadBeforeLast(c, lines + [glued], next);
  }

  lemma GluedIsIgnored(c: RecordCodec, lines: seq<string>, glued: string)
    requires FirstBad(c, lines) == None && Bad(c, glued)
    ensures Scan(c, lines + [glued]) == Ok(Records(c, lines))
  {
    OneMoreLine(c, lines, glued);
    assert Records(c, lines) + [] == Records(c, lines);
  }

  lemma GluedIsTheFirstBad(c: RecordCodec, lines: seq<string>, glued: string)
    requires FirstBad(c, lines) == None && Bad(c, glued)
    ensures FirstBad(c, lines + [glued]) == Some(|lines|)
  {
    OneMoreLine(c, lines, glued);
  }

  lemma BadBeforeLast(c: RecordCodec, init: seq<string>, last: string)
    requires FirstBad(c, init).Some?
    ensures Scan(c, init + [last]) == Err(FirstBad(c, init).value + 1)
  {
    assert (init + [last])[..|init|] == init;
  }
}
