/**
 * The write-ahead log (pkg/storage/wal.go): appends that may fail part-way, streaming recovery and
 * the tail window.
 */
module Wal {
  import opened Model
  import opened Codec
  import opened Replay
  import opened Log
  import opened Picking

  datatype WalError = WalClosed | EmptyId | AppendFailed | CorruptAt(line: nat)

  /**
   * What becomes of one write and sync. A failed append leaves some prefix of its bytes in the file:
   * none if marshalling failed, all of them if only the sync did.
   */
  datatype Outcome = Done | Failed(kept: nat)

  /** What stays of a line of which at most so many characters are written. */
  function Kept(line: string, kept: nat): string {
    line[..if kept < |line| then kept else |line|]
  }

  datatype WalState = WalState(file: string, synced: nat, recordNo: nat, open: bool) {

    /** appendLocked: the record number is used up whether or not the append succeeds. */
    function Append(c: RecordCodec, r: Record, ts: Time, o: Outcome): (WalState, Result<(), WalError>) {
      if !open then (this, Err(WalClosed))
      else
        var line := Line(c, Stamp(r, recordNo + 1, ts));
        match o
        case Done =>
          (WalState(file + line, |file + line|, recordNo + 1, true), Ok(()))
        case Failed(kept) =>
          (WalState(file + Kept(line, kept), synced, recordNo + 1, true),
           Err(AppendFailed))
    }

    function WriteEnqueue(c: RecordCodec, m: Message, ts: Time, o: Outcome): (WalState, Result<(), WalError>) {
      if m.id == "" then (this, Err(EmptyId)) else Append(c, EnqueueRecord(m), ts, o)
    }

    function WriteDequeue(c: RecordCodec, id: string, ts: Time, o: Outcome): (WalState, Result<(), WalError>) {
      if id == "" then (this, Err(EmptyId)) else Append(c, DequeueRecord(id), ts, o)
    }
  }

  // ---------- Recovered messages in enqueue order ----------

  /** Go's order on strings. */
  predicate StringLess(a: string, b: string) {
    if b == "" then false
    else if a == "" then true
    else if a[0] != b[0] then a[0] < b[0]
    else StringLess(a[1..], b[1..])
  }

  /** The order is that of a dictionary: the first difference decides, and a beginning comes before the whole. */
  lemma {:induction false} StringLessIsLexicographic(a: string, b: string)
    ensures StringLess(a, b) <==> exists k :: DiffersAt(a, b, k)
  {
    if a == "" || b == "" || a[0] != b[0] {
      if b != "" && a == "" {
        assert DiffersAt(a, b, 0);
      } else if b != "" && a != "" && a[0] < b[0] {
        assert DiffersAt(a, b, 0);
      }
      forall k | 0 < k <= |a| && k <= |b| ensures a[..k] != b[..k] {
        assert a[..k][0] == a[0] && b[..k][0] == b[0];
      }
    } else {
      StringLessIsLexicographic(a[1..], b[1..]);
      StringLessOneMore(a, b);
    }
  }

  /** A place where the first difference is found. */
  ghost predicate DiffersAt(a: string, b: string, k: int) {
    && 0 <= k <= |a| && k <= |b| && a[..k] == b[..k]
    && ((k == |a| && k < |b|) || (k < |a| && k < |b| && a[k] < b[k]))
  }

  lemma StringLessOneMore(a: string, b: string)
    requires a != "" && b != "" && a[0] == b[0]
    ensures (exists k :: DiffersAt(a, b, k)) <==> exists k :: DiffersAt(a[1..], b[1..], k)
  {
    if k :| DiffersAt(a, b, k) {
      assert k > 0;
      assert a[..k][1..] == a[1..][..k - 1] && b[..k][1..] == b[1..][..k - 1];
      assert DiffersAt(a[1..], b[1..], k - 1);
    }
    if k :| DiffersAt(a[1..], b[1..], k) {
      assert a[..k + 1] == [a[0]] + a[1..][..k] && b[..k + 1] == [b[0]] + b[1..][..k];
      assert DiffersAt(a, b, k + 1);
    }
  }

  lemma {:induction false} StringLessIsTotal(a: string, b: string)
    ensures !StringLess(a, a)
    ensures a != b ==> StringLess(a, b) || StringLess(b, a)
  {
    if a != "" {
      StringLessIsTotal(a[1..], if b == "" then "" else b[1..]);
      if b != "" && a[0] == b[0] && a[1..] == b[1..] {
        assert a == [a[0]] + a[1..] && b == [b[0]] + b[1..];
      }
    }
  }

  lemma {:induction false} StringLessIsTransitive(a: string, b: string, c: string)
    requires StringLess(a, b) && StringLess(b, c)
    ensures StringLess(a, c)
  {
    if a != "" && a[0] == b[0] == c[0] {
      StringLessIsTransitive(a[1..], b[1..], c[1..]);
    }
  }

  predicate MessageLess(a: Message, b: Message) {
    if a.seqNo != b.seqNo then a.seqNo < b.seqNo else StringLess(a.id, b.id)
  }

  ghost predicate SortedBySeq(ms: seq<Message>) {
    forall i, j :: 0 <= i < j < |ms| ==> MessageLess(ms[i], ms[j])
  }

  lemma MessageLessIsOrder(a: Message, b: Message, c: Message)
    ensures !MessageLess(a, a)
    ensures a.id != b.id ==> MessageLess(a, b) || MessageLess(b, a)
    ensures MessageLess(a, b) && MessageLess(b, c) ==> MessageLess(a, c)
  {
    StringLessIsTotal(a.id, b.id);
    if a.seqNo == b.seqNo == c.seqNo && StringLess(a.id, b.id) && StringLess(b.id, c.id) {
      StringLessIsTransitive(a.id, b.id, c.id);
    }
  }

  /** ms are the live messages, by Seq and then ID. */
  ghost predicate IsListing(live: Live, ms: seq<Message>) {
    && SortedBySeq(ms)
    && forall m :: m in ms <==> m in live.Values
  }

  lemma EmptyOrInhabited(ms: seq<Message>)
    ensures ms == [] || exists m :: m in ms
  {
    assert ms != [] ==> ms[0] in ms;
  }

  lemma {:induction false} SortedIsUnique(a: seq<Message>, b: seq<Message>)
    requires SortedBySeq(a) && SortedBySeq(b)
    requires forall m :: m in a <==> m in b
    ensures a == b
  {
    EmptyOrInhabited(a);
    EmptyOrInhabited(b);
    if a != [] && b != [] {
      SortedHeadsAgree(a, b);
      forall m ensures m in a[1..] <==> m in b[1..] {
        NotInTail(a, m);
        NotInTail(b, m);
      }
      SortedIsUnique(a[1..], b[1..]);
    }
  }

  lemma NotInTail(a: seq<Message>, m: Message)
    requires SortedBySeq(a) && a != []
    ensures m in a[1..] <==> m in a && m != a[0]
  {
    if m in a[1..] {
      var i :| 0 <= i < |a[1..]| && a[1..][i] == m;
      assert a[i + 1] == m && MessageLess(a[0], a[i + 1]);
      MessageLessIsOrder(m, m, m);
    }
    if m in a && m != a[0] {
      var i :| 0 <= i < |a| && a[i] == m;
      assert a[1..][i - 1] == m;
    }
  }

  lemma SortedHeadsAgree(a: seq<Message>, b: seq<Message>)
    requires SortedBySeq(a) && SortedBySeq(b) && a != [] && b != []
    requires forall m :: m in a <==> m in b
    ensures a[0] == b[0]
  {
    assert a[0] in b && b[0] in a;
    var i :| 0 <= i < |b| && b[i] == a[0];
    var j :| 0 <= j < |a| && a[j] == b[0];
    MessageLessIsOrder(a[0], b[0], a[0]);
  }

  /** The one listing of the live messages. */
  ghost function Listing(live: Live): seq<Message> {
    if exists ms :: IsListing(live, ms) then
      var ms :| IsListing(live, ms);
      ms
    else []
  }

  lemma ListingIsUnique(live: Live, ms: seq<Message>)
    requires IsListing(live, ms)
    ensures ms == Listing(live)
  {
    SortedIsUnique(ms, Listing(live));
  }

  /** What slices.SortFunc promises, met by insertion: one message put in its place. */
  function Insert(ms: seq<Message>, m: Message): seq<Message> {
    if ms == [] then [m]
    else if MessageLess(m, ms[0]) then [m] + ms
    else [ms[0]] + Insert(ms[1..], m)
  }

  lemma {:induction false} InsertSorts(ms: seq<Message>, m: Message)
    requires SortedBySeq(ms) && forall x :: x in ms ==> x.id != m.id
    ensures forall x :: x in Insert(ms, m) <==> x in ms || x == m
    ensures SortedBySeq(Insert(ms, m))
  {
    if ms == [] {
    } else if MessageLess(m, ms[0]) {
      forall x | x in ms ensures MessageLess(m, x) {
        var i :| 0 <= i < |ms| && ms[i] == x;
        MessageLessIsOrder(m, ms[0], x);
      }
    } else {
      var rest := Insert(ms[1..], m);
      InsertSorts(ms[1..], m);
      assert ms == [ms[0]] + ms[1..];
      forall x | x in rest ensures MessageLess(ms[0], x) {
        MessageLessIsOrder(m, ms[0], m);
        assert ms[0] in ms;
        if x in ms[1..] {
          var i :| 0 <= i < |ms[1..]| && ms[1..][i] == x;
          assert MessageLess(ms[0], ms[i + 1]);
        }
      }
    }
  }

  lemma {:induction false} ListingExists(live: Live) returns (ms: seq<Message>)
    requires Keyed(live)
    ensures IsListing(live, ms)
    decreases |live|
  {
    if live == map[] {
      ms := [];
    } else {
      var id :| id in live;
      var rest := live - {id};
      assert rest.Keys == live.Keys - {id};
      var tail := ListingExists(rest);
      ValuesWithout(live, id);
      InsertSorts(tail, live[id]);
      ms := Insert(tail, live[id]);
    }
  }

  lemma ValuesWithout(live: Live, id: string)
    requires Keyed(live) && id in live
    ensures live.Values == (live - {id}).Values + {live[id]}
    ensures forall m :: m in (live - {id}).Values ==> m.id != id
  {
    var rest := live - {id};
    forall m | m in live.Values && m != live[id] ensures m in rest.Values {
      var k :| k in live && live[k] == m;
      assert rest[k] == m;
    }
    forall m | m in rest.Values ensures m in live.Values && m.id != id {
      var k :| k in rest && rest[k] == m;
      assert live[k] == m;
    }
  }

  method SortMessages(ms: seq<Message>) returns (sorted: seq<Message>)
    requires forall i, j :: 0 <= i < j < |ms| ==> ms[i].id != ms[j].id
    ensures SortedBySeq(sorted)
    ensures forall m :: m in sorted <==> m in ms
  {
    sorted := [];
    for i := 0 to |ms|
      invariant SortedBySeq(sorted)
      invariant forall m :: m in sorted <==> m in ms[..i]
    {
      forall x | x in sorted ensures x.id != ms[i].id {
        var k :| 0 <= k < i && ms[..i][k] == x;
      }
      InsertSorts(sorted, ms[i]);
      sorted := Insert(sorted, ms[i]);
      assert ms[..i + 1] == ms[..i] + [ms[i]];
    }
    assert ms[..|ms|] == ms;
  }

  /** The live messages in any order, then sorted. */
  method ListLive(live: Live) returns (out: seq<Message>)
    requires Keyed(live)
    ensures out == Listing(live)
  {
    out := [];
    var todo := live.Keys;
    while todo != {}
      invariant todo <= live.Keys
      invariant forall m :: m in out <==> exists id :: id in live && id !in todo && live[id] == m
      invariant forall i, j :: 0 <= i < j < |out| ==> out[i].id != out[j].id
      decreases todo
    {
      var id :| id in todo;
      assert forall m :: m in out ==> m.id != id;
      out := out + [live[id]];
      todo := todo - {id};
    }
    out := SortMessages(out);
    assert IsListing(live, out);
    ListingIsUnique(live, out);
  }

  // ---------- Tail ----------

  const TAIL_WINDOW_BYTES := 4 * 1024 * 1024

  predicate IsSpace(ch: char) {
    ch == ' ' || ch == '\t' || ch == '\n' || ch == '\r' || ch == 11 as char || ch == 12 as char
  }

  function TrimLeft(s: string): string {
    if s != "" && IsSpace(s[0]) then TrimLeft(s[1..]) else s
  }

  function TrimSpace(s: string): string {
    var t := TrimLeft(s);
    TrimRight(t)
  }

  function TrimRight(s: string): string {
    if s != "" && IsSpace(s[|s| - 1]) then TrimRight(s[..|s| - 1]) else s
  }

  /** Only space, tab, newline, return, vertical tab and form feed, by their codes. */
  predicate Blank(s: string) {
    forall i :: 0 <= i < |s| ==> s[i] as int in {32, 9, 10, 13, 11, 12}
  }

  lemma {:induction false} TrimLeftTrims(s: string) returns (front: string)
    ensures s == front + TrimLeft(s) && Blank(front)
    ensures TrimLeft(s) != "" ==> TrimLeft(s)[0] as int !in {32, 9, 10, 13, 11, 12}
  {
    front := "";
    if s != "" && IsSpace(s[0]) {
      front := TrimLeftTrims(s[1..]);
      front := [s[0]] + front;
      assert s == [s[0]] + s[1..];
    }
  }

  lemma {:induction false} TrimRightTrims(s: string) returns (back: string)
    ensures s == TrimRight(s) + back && Blank(back)
    ensures TrimRight(s) != "" ==> TrimRight(s)[|TrimRight(s)| - 1] as int !in {32, 9, 10, 13, 11, 12}
  {
    back := "";
    if s != "" && IsSpace(s[|s| - 1]) {
      back := TrimRightTrims(s[..|s| - 1]);
      back := back + [s[|s| - 1]];
      assert s == s[..|s| - 1] + [s[|s| - 1]];
    }
  }

  /** Trimming takes blanks off both ends, all of them and nothing else. */
  lemma TrimSpaceTrims(line: string) returns (front: string, back: string)
    ensures line == front + TrimSpace(line) + back && Blank(front) && Blank(back)
    ensures var t := TrimSpace(line);
            t != "" ==> t[0] as int !in {32, 9, 10, 13, 11, 12} && t[|t| - 1] as int !in {32, 9, 10, 13, 11, 12}
  {
    front := TrimLeftTrims(line);
    back := TrimRightTrims(TrimLeft(line));
    var t := TrimLeft(line);
    assert t == TrimRight(t) + back;
    if TrimRight(t) != "" {
      assert t[0] == TrimRight(t)[0];
    }
  }

  /** What needs no trimming is left as it is. */
  lemma NothingToTrim(s: string)
    requires s != "" && !IsSpace(s[0]) && !IsSpace(s[|s| - 1])
    ensures TrimSpace(s) == s
  {
  }

  /** A line as Tail shows it, unless it is blank or invalid. */
  function ValidLine(valid: string -> bool, line: string): seq<string> {
    var trimmed := TrimSpace(line);
    if trimmed == "" || !valid(trimmed) then [] else [trimmed]
  }

  function Collect(show: string -> seq<string>, lines: seq<string>): seq<string> {
    if lines == [] then []
    else Collect(show, lines[..|lines| - 1]) + show(lines[|lines| - 1])
  }

  /** All that Tail could show of these lines, in order. */
  function ValidLines(valid: string -> bool, lines: seq<string>): seq<string> {
    Collect(line => ValidLine(valid, line), lines)
  }

  /** shown are the lines that are not blank and, without the blanks around them, valid; at tells which. */
  ghost predicate ShownFrom(valid: string -> bool, lines: seq<string>, shown: seq<string>, at: seq<nat>) {
    && |at| == |shown|
    && (forall k :: 0 <= k < |at| ==> at[k] < |lines| && shown[k] == TrimSpace(lines[at[k]]) && shown[k] != "" && valid(shown[k]))
    && (forall k, l :: 0 <= k < l < |at| ==> at[k] < at[l])
    && (forall i :: 0 <= i < |lines| && TrimSpace(lines[i]) != "" && valid(TrimSpace(lines[i])) ==> i in at)
  }

  lemma ValidLinesArePicked(valid: string -> bool, lines: seq<string>) returns (at: seq<nat>)
    ensures ShownFrom(valid, lines, ValidLines(valid, lines), at)
  {
    var value := line => var t := TrimSpace(line); if t == "" || !valid(t) then None else Some(t);
    at := PickShown(line => ValidLine(valid, line), value, lines);
  }

  lemma {:induction false} PickShown(show: string -> seq<string>, value: string -> Option<string>, lines: seq<string>) returns (at: seq<nat>)
    requires forall line :: show(line) == if value(line) == None then [] else [value(line).value]
    ensures Picks(lines, value, Collect(show, lines), at)
  {
    at := [];
    if lines != [] {
      var init, line := lines[..|lines| - 1], lines[|lines| - 1];
      at := PickShown(show, value, init);
      PicksOneMore(init, line, value, Collect(show, init), at);
      assert lines == init + [line] && Collect(show, init) + [] == Collect(show, init);
      if value(line).Some? {
        at := at + [|init|];
      }
    }
  }

  lemma {:induction false} EncodedAreShown(c: RecordCodec, valid: string -> bool, rs: seq<Record>)
    requires forall i :: 0 <= i < |rs| ==> ValidLine(valid, c.encode(rs[i])) == [c.encode(rs[i])]
    ensures ValidLines(valid, EncodedLines(c, rs)) == EncodedLines(c, rs)
  {
    if rs != [] {
      var init, r := rs[..|rs| - 1], rs[|rs| - 1];
      assert forall i :: 0 <= i < |init| ==> init[i] == rs[i];
      EncodedAreShown(c, valid, init);
      OneMoreShown(valid, EncodedLines(c, init), c.encode(r));
    }
  }

  /** The lines of a log of whole records are shown as they were written. */
  lemma LogIsShown(valid: string -> bool, rs: seq<Record>)
    requires forall i :: 0 <= i < |rs| ==> valid(Encode(rs[i]))
    ensures ValidLines(valid, ScanLines(LogText(Json(), rs))) == EncodedLines(Json(), rs)
  {
    JsonIsSound();
    LinesOfLog(Json(), rs);
    forall i | 0 <= i < |rs| ensures ValidLine(valid, Json().encode(rs[i])) == [Json().encode(rs[i])] {
      WrittenIsShown(valid, rs[i]);
    }
    EncodedAreShown(Json(), valid, rs);
  }

  lemma WrittenIsShown(valid: string -> bool, r: Record)
    requires valid(Encode(r))
    ensures ValidLine(valid, Encode(r)) == [Encode(r)]
  {
    EncodedIsBraced(r);
    NothingToTrim(Encode(r));
  }

  lemma OneMoreShown(valid: string -> bool, lines: seq<string>, line: string)
    ensures ValidLines(valid, lines + [line]) == ValidLines(valid, lines) + ValidLine(valid, line)
  {
    CollectLast(line => ValidLine(valid, line), lines, line);
  }

  /** The empty piece after the last newline shows nothing. */
  lemma PiecesShowLines(valid: string -> bool, file: string)
    ensures ValidLines(valid, Split(file)) == ValidLines(valid, ScanLines(file))
  {
    var parts := Split(file);
    if parts[|parts| - 1] == "" {
      assert parts == parts[..|parts| - 1] + [""];
      OneMoreShown(valid, parts[..|parts| - 1], "");
    }
  }

  /** The file is these records, whole, and their lines are valid. */
  ghost predicate IsLogOf(c: RecordCodec, file: string, valid: string -> bool, rs: seq<Record>) {
    file == LogText(c, rs) && forall i :: 0 <= i < |rs| ==> valid(c.encode(rs[i]))
  }

  lemma LogsAreShown(c: RecordCodec, valid: string -> bool, file: string)
    ensures c == Json() ==>
              forall rs :: IsLogOf(c, file, valid, rs) ==> ValidLines(valid, Split(file)) == EncodedLines(c, rs)
  {
    PiecesShowLines(valid, file);
    forall rs | c == Json() && IsLogOf(c, file, valid, rs) ensures ValidLines(valid, Split(file)) == EncodedLines(c, rs) {
      LogIsShown(valid, rs);
    }
  }

  /** The last n of xs, or all of them where n is no limit. */
  function LastFew(xs: seq<string>, n: int): seq<string> {
    if 0 < n < |xs| then xs[|xs| - n..] else xs
  }

  lemma CapKeeps(all: seq<string>, window: seq<string>, n: int)
    requires IsSuffix(window, all)
    ensures var records := LastFew(window, n);
            && IsSuffix(records, all)
            && (n > 0 ==> |records| <= n)
            && (n <= 0 || |records| < n ==> records == window)
            && (n > 0 && |window| > n ==> |records| == n < |all|)
  {
  }

  datatype WalTail = WalTail(sizeBytes: nat, truncated: bool, records: seq<string>)

  ghost predicate IsSuffix<T>(a: seq<T>, b: seq<T>) {
    |a| <= |b| && b[|b| - |a|..] == a
  }

  lemma CollectLast(show: string -> seq<string>, lines: seq<string>, line: string)
    ensures Collect(show, lines + [line]) == Collect(show, lines) + show(line)
  {
    assert (lines + [line])[..|lines|] == lines;
  }

  lemma {:induction false} CollectConcat(show: string -> seq<string>, a: seq<string>, b: seq<string>)
    ensures Collect(show, a + b) == Collect(show, a) + Collect(show, b)
  {
    if b == [] {
      assert a + b == a;
    } else {
      var init, line := b[..|b| - 1], b[|b| - 1];
      assert b == init + [line] && a + b == (a + init) + [line];
      CollectConcat(show, a, init);
      CollectLast(show, a + init, line);
      CollectLast(show, init, line);
      assert Collect(show, a) + (Collect(show, init) + show(line)) == (Collect(show, a) + Collect(show, init)) + show(line);
    }
  }

  lemma CollectOne(show: string -> seq<string>, lines: seq<string>, i: nat)
    requires i < |lines|
    ensures Collect(show, lines[..i + 1]) == Collect(show, lines[..i]) + show(lines[i])
  {
    assert lines[..i + 1][..i] == lines[..i];
  }

  lemma ConcatHasSuffix(valid: string -> bool, front: seq<string>, back: seq<string>)
    ensures IsSuffix(ValidLines(valid, back), ValidLines(valid, front + back))
  {
    CollectConcat(line => ValidLine(valid, line), front, back);
  }

  lemma DropFirstPiece(head: string, window: string) returns (front: seq<string>)
    ensures Split(head + window) == front + Split(window)[1..]
  {
    SplitConcat(head, window);
    var a, b := Split(head), Split(window);
    front := a[..|a| - 1] + [a[|a| - 1] + b[0]];
    assert Join(a, b) == front + b[1..];
  }

  lemma LaterPartIsSuffix(valid: string -> bool, head: string, window: string)
    ensures IsSuffix(ValidLines(valid, Split(window)[1..]), ValidLines(valid, Split(head + window)))
  {
    var front := DropFirstPiece(head, window);
    ConcatHasSuffix(valid, front, Split(window)[1..]);
  }

  /** Dropping the first piece of a window leaves whole lines of the file, the last ones. */
  lemma WindowIsSuffix(valid: string -> bool, file: string, start: nat)
    requires start <= |file|
    ensures IsSuffix(ValidLines(valid, Split(file[start..])[1..]), ValidLines(valid, Split(file)))
    ensures file[0..] == file
  {
    LaterPartIsSuffix(valid, file[..start], file[start..]);
    assert file[..start] + file[start..] == file;
  }

  /** A newline at g starts a whole line: the pieces from there on are pieces of the window. */
  lemma LinesAfterNewline(window: string, g: nat) returns (front: seq<string>)
    requires g < |window| && window[g] == '\n'
    ensures front != [] && Split(window) == front + Split(window[g + 1..])
  {
    var head, rest := window[..g + 1], window[g + 1..];
    assert window == head + rest && head == window[..g] + "\n";
    SplitConcat(window[..g], "\n");
    assert Split("\n") == ["", ""];
    SplitEndsEmpty(head);
    SplitConcat(head, rest);
    JoinAtEmpty(Split(head), Split(rest));
    front := Split(head)[..|Split(head)| - 1];
  }

  /** Every line that begins after a newline inside the window survives the dropping of its first piece. */
  lemma WindowShowsWholeLines(valid: string -> bool, file: string, start: nat, h: nat)
    requires start <= h < |file| && file[h] == '\n'
    ensures IsSuffix(ValidLines(valid, Split(file[h + 1..])), ValidLines(valid, Split(file[start..])))
    ensures IsSuffix(ValidLines(valid, Split(file[h + 1..])), ValidLines(valid, Split(file[start..])[1..]))
  {
    var window, back := file[start..], Split(file[h + 1..]);
    assert window[h - start + 1..] == file[h + 1..];
    var front := LinesAfterNewline(window, h - start);
    ConcatHasSuffix(valid, front, back);
    assert Split(window)[1..] == front[1..] + back;
    ConcatHasSuffix(valid, front[1..], back);
  }

  /** Whichever pieces are shown, those of the window or those after its first one. */
  lemma WindowShowsAll(valid: string -> bool, file: string, start: nat)
    requires start <= |file|
    ensures forall h :: start <= h < |file| && file[h] == '\n' ==>
              && IsSuffix(ValidLines(valid, Split(file[h + 1..])), ValidLines(valid, Split(file[start..])))
              && IsSuffix(ValidLines(valid, Split(file[h + 1..])), ValidLines(valid, Split(file[start..])[1..]))
  {
    forall h | start <= h < |file| && file[h] == '\n'
      ensures IsSuffix(ValidLines(valid, Split(file[h + 1..])), ValidLines(valid, Split(file[start..])))
      ensures IsSuffix(ValidLines(valid, Split(file[h + 1..])), ValidLines(valid, Split(file[start..])[1..]))
    {
      WindowShowsWholeLines(valid, file, start, h);
    }
  }

  // ---------- The log object ----------

  class WAL {
    const codec: RecordCodec
    var file: string
    var synced: nat
    var recordNo: nat
    var open: bool

    /** NewWAL over what a disk holds. Recover must be called before the first append. */
    constructor (codec: RecordCodec, file: string, synced: nat)
      ensures this.codec == codec && State() == WalState(file, synced, 0, true)
    {
      this.codec := codec;
      this.file := file;
      this.synced := synced;
      recordNo := 0;
      open := true;
    }

    ghost function State(): WalState
      reads this
    {
      WalState(file, synced, recordNo, open)
    }

    method AppendLocked(r: Record, ts: Time, o: Outcome) returns (e: Result<(), WalError>)
      modifies this
      ensures (State(), e) == old(State()).Append(codec, r, ts, o)
    {
      if !open {
        return Err(WalClosed);
      }
      recordNo := recordNo + 1;
      var line := Line(codec, Stamp(r, recordNo, ts));
      match o {
        case Failed(kept) =>
          file := file + Kept(line, kept);
          return Err(AppendFailed);
        case Done =>
          file := file + line;
          synced := |file|;
          return Ok(());
      }
    }

    method WriteEnqueue(m: Message, ts: Time, o: Outcome) returns (e: Result<(), WalError>)
      modifies this
      ensures (State(), e) == old(State()).WriteEnqueue(codec, m, ts, o)
    {
      if m.id == "" {
        return Err(EmptyId);
      }
      e := AppendLocked(EnqueueRecord(m), ts, o);
    }

    method WriteDequeue(id: string, ts: Time, o: Outcome) returns (e: Result<(), WalError>)
      modifies this
      ensures (State(), e) == old(State()).WriteDequeue(codec, id, ts, o)
    {
      if id == "" {
        return Err(EmptyId);
      }
      e := AppendLocked(DequeueRecord(id), ts, o);
    }

    method Close()
      modifies this
      ensures State() == old(State()).(open := false)
    {
      open := false;
    }

    /** applyLine: folds one line into the state; false if it does not parse, and then nothing changes. */
    method ApplyLine(live: Live, maxSeq: nat, line: string) returns (live': Live, maxSeq': nat, parsed: bool)
      ensures parsed <==> !Bad(codec, line)
      ensures Folded(live', maxSeq') == FoldLine(codec, Folded(live, maxSeq), line)
    {
      live', maxSeq', parsed := live, maxSeq, true;
      if line == "" {
        return;
      }
      var decoded := codec.decode(line);
      if decoded == None {
        parsed := false;
        return;
      }
      var rec := decoded.value;
      if rec.recordNo > maxSeq {
        maxSeq' := rec.recordNo;
      }
      if rec.op == OP_ENQUEUE {
        if rec.id == "" || rec.id in live {
          return;
        }
        live' := live[rec.id := MessageOf(rec)];
      } else if rec.op == OP_DEQUEUE {
        if rec.id == "" {
          return;
        }
        live' := live - {rec.id};
      }
    }

    /**
     * The loop with one line of lookahead: only when the next line is there is the pending one applied
     * strictly. It agrees with the whole-file rule.
     */
    method FoldLines(lines: seq<string>) returns (r: Result<Folded, nat>)
      ensures match Scan(codec, lines)
              case Err(line) => r == Err(line)
              case Ok(rs) => r == Ok(Fold(NOTHING, rs))
    {
      var live: Live := map[];
      var maxSeq: nat := 0;
      var pending, pendingLine, havePending, lineNo := "", 0, false, 0;
      ghost var applied: nat := 0;
      while lineNo < |lines|
        invariant 0 <= lineNo <= |lines| && pendingLine == lineNo
        invariant havePending <==> lineNo > 0
        invariant havePending ==> pending == lines[lineNo - 1] && applied == lineNo - 1
        invariant !havePending ==> applied == 0
        invariant forall j :: 0 <= j < applied ==> !Bad(codec, lines[j])
        invariant Folded(live, maxSeq) == FoldUpTo(codec, lines, applied)
      {
        var line := lines[lineNo];
        lineNo := lineNo + 1;
        if havePending {
          var ok;
          live, maxSeq, ok := ApplyLine(live, maxSeq, pending);
          applied := applied + 1;
          if !ok {
            BadLineIsError(codec, lines, applied - 1);
            return Err(pendingLine);
          }
        }
        pending, pendingLine, havePending := line, lineNo, true;
      }
      if havePending {
        var ignored;
        live, maxSeq, ignored := ApplyLine(live, maxSeq, pending);
        applied := applied + 1;
      }
      AllLinesFold(codec, lines);
      r := Ok(Folded(live, maxSeq));
    }

    /**
     * Streaming recovery. It fails exactly when some line other than the
     * last is bad, naming the first such line; otherwise it yields the fold of all records, listed by
     * Seq, and takes up the record numbering where the log left it.
     */
    method Recover() returns (r: Result<seq<Message>, WalError>)
      modifies this`recordNo
      ensures !open ==> r == Err(WalClosed) && recordNo == old(recordNo)
      ensures open ==>
                match ReadBack(codec, file)
                case Err(line) => r == Err(CorruptAt(line)) && recordNo == old(recordNo)
                case Ok(rs) => r == Ok(Listing(Fold(NOTHING, rs).live)) && recordNo == Fold(NOTHING, rs).maxNo
    {
      if !open {
        return Err(WalClosed);
      }
      var folded := FoldLines(ScanLines(file));
      match folded {
        case Err(line) =>
          return Err(CorruptAt(line));
        case Ok(f) =>
          recordNo := f.maxNo;
          FoldIsKeyed(NOTHING, ReadBack(codec, file).value);
          var out := ListLive(f.live);
          return Ok(out);
      }
    }

    method ShowLines(valid: string -> bool, lines: seq<string>) returns (records: seq<string>)
      ensures records == ValidLines(valid, lines)
    {
      records := [];
      ghost var show := line => ValidLine(valid, line);
      for i := 0 to |lines|
        invariant records == Collect(show, lines[..i])
      {
        CollectOne(show, lines, i);
        var line := TrimSpace(lines[i]);
        if line != "" && valid(line) {
          records := records + [line];
        }
      }
      assert lines[..|lines|] == lines;
    }

    /**
     * The newest valid lines, whole and in order: always a suffix of all the valid lines of the file,
     * at most maxRecords of them when a cap is given, and all of them unless Truncated says otherwise.
     * Short of the cap nothing is missing that follows a newline inside the window. Of a log of whole
     * records that fits the window the records are shown as written, the last ones if there is a cap.
     */
    method Tail(maxRecords: int, valid: string -> bool) returns (r: Result<WalTail, WalError>)
      ensures !open <==> r == Err(WalClosed)
      ensures open ==> r.Ok? && r.value.sizeBytes == |file|
      ensures open ==> IsSuffix(r.value.records, ValidLines(valid, Split(file)))
      ensures open && !r.value.truncated ==> r.value.records == ValidLines(valid, Split(file))
      ensures open && maxRecords > 0 ==> |r.value.records| <= maxRecords
      ensures open && (maxRecords <= 0 || |r.value.records| < maxRecords) ==>
                forall h :: |file| - TAIL_WINDOW_BYTES <= h < |file| && h >= 0 && file[h] == '\n' ==>
                  IsSuffix(ValidLines(valid, Split(file[h + 1..])), r.value.records)
      ensures open && r.value.truncated ==>
                |file| > TAIL_WINDOW_BYTES || 0 < maxRecords == |r.value.records| < |ValidLines(valid, Split(file))|
      ensures open && |file| > 4_194_304 ==> r.value.truncated
      ensures open && |file| <= 4_194_304 ==> r.value.records == LastFew(ValidLines(valid, Split(file)), maxRecords)
      ensures open && |file| <= 4_194_304 && codec == Json() ==>
                forall rs :: IsLogOf(codec, file, valid, rs) ==> r.value.records == LastFew(EncodedLines(codec, rs), maxRecords)
    {
      if !open {
        return Err(WalClosed);
      }
      var size := |file|;
      var start := if size > TAIL_WINDOW_BYTES then size - TAIL_WINDOW_BYTES else 0;
      var records := Window(start, valid);
      LogsAreShown(codec, valid, file);
      CapKeeps(ValidLines(valid, Split(file)), records, maxRecords);
      var capped := false;
      if maxRecords > 0 && |records| > maxRecords {
        records := records[|records| - maxRecords..];
        capped := true;
      }
      r := Ok(WalTail(size, start > 0 || capped, records));
    }

    /** The valid lines from start on, without the piece that start may have cut. */
    method Window(start: nat, valid: string -> bool) returns (records: seq<string>)
      requires start <= |file|
      ensures IsSuffix(records, ValidLines(valid, Split(file)))
      ensures start == 0 ==> records == ValidLines(valid, Split(file))
      ensures forall h :: start <= h < |file| && file[h] == '\n' ==>
                IsSuffix(ValidLines(valid, Split(file[h + 1..])), records)
    {
      WindowIsSuffix(valid, file, start);
      WindowShowsAll(valid, file, start);
      var lines := Split(file[start..]);
      if start > 0 {
        lines := lines[1..];
      }
      records := ShowLines(valid, lines);
    }
  }

  // ---------- Line by line and all at once ----------

  /** One line's effect: its record's, if it holds one. */
  function FoldLine(c: RecordCodec, f: Folded, line: string): Folded {
    if line == "" then f
    else
      match c.decode(line)
      case None => f
      case Some(r) => Apply(f, r)
  }

  function FoldUpTo(c: RecordCodec, lines: seq<string>, k: nat): Folded
    requires k <= |lines|
  {
    if k == 0 then NOTHING else FoldLine(c, FoldUpTo(c, lines, k - 1), lines[k - 1])
  }

  lemma {:induction false} FoldUpToIsFold(c: RecordCodec, lines: seq<string>, k: nat)
    requires k <= |lines|
    ensures FoldUpTo(c, lines, k) == Fold(NOTHING, Records(c, lines[..k]))
  {
    if k > 0 {
      FoldUpToIsFold(c, lines, k - 1);
      assert lines[..k] == lines[..k - 1] + [lines[k - 1]];
      FoldLast(c, lines[..k - 1], lines[k - 1]);
    }
  }

  lemma FoldLast(c: RecordCodec, done: seq<string>, line: string)
    ensures Fold(NOTHING, Records(c, done + [line])) == FoldLine(c, Fold(NOTHING, Records(c, done)), line)
  {
    OneMoreLine(c, done, line);
    FoldOneMore(c, Records(c, done), line);
  }

  lemma FoldOneMore(c: RecordCodec, rs: seq<Record>, line: string)
    ensures Fold(NOTHING, rs + RecordIn(c, line)) == FoldLine(c, Fold(NOTHING, rs), line)
  {
    assert rs + [] == rs;
    if line != "" && c.decode(line).Some? {
      FoldAppend(NOTHING, rs, c.decode(line).value);
    }
  }

  lemma BadLineIsError(c: RecordCodec, lines: seq<string>, i: nat)
    requires i + 1 < |lines| && Bad(c, lines[i])
    requires forall j :: 0 <= j < i ==> !Bad(c, lines[j])
    ensures Scan(c, lines) == Err(i + 1)
  {
    var init := lines[..|lines| - 1];
    assert forall j :: 0 <= j < |init| ==> init[j] == lines[j];
    assert FirstBad(c, init) == Some(i);
  }

  lemma AllLinesFold(c: RecordCodec, lines: seq<string>)
    requires forall j :: 0 <= j < |lines| - 1 ==> !Bad(c, lines[j])
    ensures Scan(c, lines).Ok? && FoldUpTo(c, lines, |lines|) == Fold(NOTHING, Scan(c, lines).value)
  {
    assert lines[..|lines|] == lines;
    FoldUpToIsFold(c, lines, |lines|);
    if lines != [] {
      var init := lines[..|lines| - 1];
      assert forall j :: 0 <= j < |init| ==> init[j] == lines[j];
    }
  }
}
