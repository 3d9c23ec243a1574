/** Rows on their way from the wire to the application: ODBCDriver2 values, the prefetch queue, the row sets. */
module RowDelivery {
  import opened Text

  /** A field: SQL NULL, or the bytes of its text. */
  datatype Value = Null | Bytes(bytes: seq<Byte>)

  type Row = seq<Value>

  /** A row of the prefetch queue. Broken is one whose reading was cut short by an exception. */
  datatype Queued = Whole(row: Row) | Broken

  /** What is left of a response, and whether the transfer behind it has failed. */
  datatype Stream = Stream(rest: seq<Byte>, fails: bool)

  // -------- values

  function Int32(b: seq<Byte>): int
    requires |b| == 4
  {
    var u := Unsigned(b[0], b[1], b[2], b[3]);
    if u < 0x8000_0000 then u else u - 0x1_0000_0000
  }

  function Unsigned(a: int, b: int, c: int, d: int): int { a + 256 * (b + 256 * (c + 256 * d)) }

  /** The four bytes of a std::int32_t, the least significant one first. */
  function FourBytes(n: int): (b: seq<Byte>)
    requires -0x8000_0000 <= n < 0x8000_0000
    ensures |b| == 4 && Int32(b) == n
  {
    var u := if n < 0 then n + 0x1_0000_0000 else n;
    [u % 256, u / 256 % 256, u / 256 / 256 % 256, u / 256 / 256 / 256]
  }

  /** Numbers on the wire are little-endian, in two's complement: the first byte counts ones, each further one 256
      times as much, and the highest bit of the last one counts negatively. */
  lemma LittleEndian(a: Byte, b: Byte, c: Byte, d: Byte)
    ensures Int32([a, b, c, d]) == a + 256 * b + 65536 * c + 16777216 * (if d < 128 then d else d - 256)
  {
  }

  /** readSize: None for the exception. */
  function SizeAt(s: seq<Byte>): Option<(int, seq<Byte>)> {
    if |s| < 4 then None else Some((Int32(s[..4]), s[4..]))
  }

  /** readValue of a string */
  function ValueAt(s: seq<Byte>): (r: Option<(Value, seq<Byte>)>)
    ensures r.Some? ==> |r.value.1| < |s|
  {
    if |s| < 4 then None
    else
      var size, rest := Int32(s[..4]), s[4..];
      if size < 0 then Some((Null, rest))
      else if size > |rest| then None
      else Some((Bytes(rest[..size]), rest[size..]))
  }

  function ValuesAt(s: seq<Byte>, n: nat): (r: Option<(Row, seq<Byte>)>)
    ensures r.Some? ==> |r.value.0| == n && |r.value.1| <= |s| && (n > 0 ==> |r.value.1| < |s|)
    decreases n
  {
    if n == 0 then Some(([], s))
    else
      match ValueAt(s)
      case None => None
      case Some((value, rest)) =>
        match ValuesAt(rest, n - 1)
        case None => None
        case Some((more, last)) => Some(([value] + more, last))
  }

  predicate Writable(value: Value) { value.Bytes? ==> |value.bytes| < 0x8000_0000 }

  function WriteValue(value: Value): seq<Byte>
    requires Writable(value)
  {
    match value
    case Null => FourBytes(-1)
    case Bytes(bytes) => FourBytes(|bytes|) + bytes
  }

  predicate WritableRow(row: Row) { forall i :: 0 <= i < |row| ==> Writable(row[i]) }

  function WriteRow(row: Row): seq<Byte>
    requires WritableRow(row)
  {
    if row == [] then [] else WriteValue(row[0]) + WriteRow(row[1..])
  }

  lemma ValueRead(value: Value, after: seq<Byte>)
    requires Writable(value)
    ensures ValueAt(WriteValue(value) + after) == Some((value, after))
  {
    hide Int32, FourBytes;
    var head := FourBytes(if value.Null? then -1 else |value.bytes|);
    var s := WriteValue(value) + after;
    var tail := (if value.Null? then [] else value.bytes) + after;
    assert s == head + tail && s[..4] == head && s[4..] == tail;
    if value.Bytes? {
      assert tail[..|value.bytes|] == value.bytes && tail[|value.bytes|..] == after;
    }
  }

  lemma {:induction false} RowRead(row: Row, after: seq<Byte>)
    requires WritableRow(row)
    ensures ValuesAt(WriteRow(row) + after, |row|) == Some((row, after))
    decreases |row|
  {
    hide ValueAt, WriteValue;
    if row == [] {
      assert WriteRow(row) + after == after;
    } else {
      var more := WriteRow(row[1..]) + after;
      assert WriteRow(row) + after == WriteValue(row[0]) + more;
      ValueRead(row[0], more);
      RowRead(row[1..], after);
      assert [row[0]] + row[1..] == row;
    }
  }

  // -------- tables

  /** The rows at the head of a text, and whether it ends behind the last of them. */
  datatype Rows = Rows(rows: seq<Row>, clean: bool)

  function Decode(s: seq<Byte>, columns: nat): Rows
    requires columns > 0
    decreases |s|
  {
    if s == [] then Rows([], true)
    else
      match ValuesAt(s, columns)
      case None => Rows([], false)
      case Some((row, rest)) =>
        var more := Decode(rest, columns);
        Rows([row] + more.rows, more.clean)
  }

  predicate IsTable(rows: seq<Row>, columns: nat) {
    columns > 0 && forall i :: 0 <= i < |rows| ==> |rows[i]| == columns && WritableRow(rows[i])
  }

  function Write(rows: seq<Row>, columns: nat): seq<Byte>
    requires IsTable(rows, columns)
  {
    if rows == [] then [] else WriteRow(rows[0]) + Write(rows[1..], columns)
  }

  /** The rows of a table are read back in their order. */
  lemma {:induction false} TableRead(rows: seq<Row>, columns: nat)
    requires IsTable(rows, columns)
    ensures Decode(Write(rows, columns), columns) == Rows(rows, true)
    decreases |rows|
  {
    hide ValuesAt, WriteRow, WritableRow;
    if rows != [] {
      RowRead(rows[0], Write(rows[1..], columns));
      RowIsThere(rows[0], Write(rows[1..], columns));
      TableRead(rows[1..], columns);
      assert [rows[0]] + rows[1..] == rows;
    }
  }

  lemma RowIsThere(row: Row, after: seq<Byte>)
    requires WritableRow(row) && row != []
    ensures WriteRow(row) + after != []
  {
    hide Int32;
    assert |WriteValue(row[0])| >= 4;
  }

  // -------- row sets

  const PREFETCH_AT_LEAST: nat := 100

  datatype State = State(
    stream: Stream, columns: nat, rowSet: seq<Queued>, position: nat, rowPosition: nat, affected: nat,
    prefetched: seq<Queued>, finished: bool
  )

  /** readNextRow: the row, or the end, or the exception. */
  datatype Next = Got(row: Row, stream: Stream) | AtEnd | Failed(stream: Stream)

  /** A read that wants more bytes than are left takes those that are left and throws. Behind it a transfer that
      has failed throws again, and any other one is at its end. */
  function NextRow(stream: Stream, columns: nat): Next {
    if stream.rest == [] then (if stream.fails then Failed(stream) else AtEnd)
    else
      match ValuesAt(stream.rest, columns)
      case None => Failed(stream.(rest := []))
      case Some((row, rest)) => Got(row, stream.(rest := rest))
  }

  /** tryPrefetchRows; false is the exception, and the row that was being read stays in the queue. */
  function Prefetch(st: State, size: nat): (r: (State, bool))
    requires st.columns > 0
    ensures r.0.columns == st.columns && r.0.rowSet == st.rowSet
    decreases size - |st.prefetched|
  {
    if st.finished || |st.prefetched| >= size then (st, true)
    else
      match NextRow(st.stream, st.columns)
      case AtEnd => (st.(finished := true), true)
      case Failed(stream) => (st.(stream := stream, prefetched := st.prefetched + [Broken]), false)
      case Got(row, stream) => Prefetch(st.(stream := stream, prefetched := st.prefetched + [Whole(row)]), size)
  }

  function Retired(st: State): State { st.(rowSet := [], position := st.position + |st.rowSet|) }

  /** The rows of the queue move into the row set. */
  function Moved(st: State, size: nat): State {
    var n := Min(size, |st.prefetched|);
    var position := if n == 0 then 0 else if st.position == 0 then 1 else st.position;
    st.(rowSet := st.prefetched[..n], prefetched := st.prefetched[n..], affected := st.affected + n,
        position := position, rowPosition := position)
  }

  /** fetchRowSet for SQL_FETCH_NEXT */
  function Fetch(st: State, size: nat): (r: (State, bool))
    requires st.columns > 0
    ensures r.0.columns == st.columns
  {
    var retired := Retired(st);
    if |retired.prefetched| >= size then (Moved(retired, size), true)
    else
      var (filled, ok) := Prefetch(retired, if size > PREFETCH_AT_LEAST then size else PREFETCH_AT_LEAST);
      if ok then (Moved(filled, size), true) else (filled, false)
  }

  // -------- what every fetch keeps

  function Wholes(rows: seq<Row>): (q: seq<Queued>)
    ensures |q| == |rows| && forall i :: 0 <= i < |q| ==> q[i] == Whole(rows[i])
  {
    seq(|rows|, i requires 0 <= i < |rows| => Whole(rows[i]))
  }

  /** The rows that have not been delivered: those of the queue, and those that are still on the wire. */
  function Ahead(st: State): seq<Queued>
    requires st.columns > 0
  {
    st.prefetched + (if st.finished then [] else Wholes(Decode(st.stream.rest, st.columns).rows))
  }

  /** The table ends behind its last row, and the transfer does not fail. */
  predicate Clean(st: State)
    requires st.columns > 0
  {
    st.finished || (Decode(st.stream.rest, st.columns).clean && !st.stream.fails)
  }

  lemma WholesCons(row: Row, rows: seq<Row>)
    ensures Wholes([row] + rows) == [Whole(row)] + Wholes(rows)
  {
  }

  /** Prefetching moves rows from the wire to the queue and changes nothing else, until it fails. */
  lemma {:induction false} PrefetchKeeps(st: State, size: nat)
    requires st.columns > 0
    ensures var (next, ok) := Prefetch(st, size);
            && next.columns == st.columns
            && next == st.(stream := next.stream, prefetched := next.prefetched, finished := next.finished)
            && (ok ==> Ahead(next) == Ahead(st) && Clean(next) == Clean(st)
                       && (|next.prefetched| >= size || (next.finished && next.prefetched == Ahead(st))))
            && (!ok ==> !Clean(st) && next.prefetched == Ahead(st) + [Broken] && |Ahead(st)| < size
                        && next.stream == Stream([], st.stream.fails) && !next.finished)
            && next.stream.fails == st.stream.fails
    decreases size - |st.prefetched|
  {
    hide ValuesAt;
    if !st.finished && |st.prefetched| < size {
      var next := NextRow(st.stream, st.columns);
      if next.Got? {
        var more := st.(stream := next.stream, prefetched := st.prefetched + [Whole(next.row)]);
        var rows := Decode(next.stream.rest, st.columns).rows;
        WholesCons(next.row, rows);
        assert st.prefetched + ([Whole(next.row)] + Wholes(rows)) == st.prefetched + [Whole(next.row)] + Wholes(rows);
        PrefetchKeeps(more, size);
      } else {
        assert Wholes([]) == [] && st.prefetched + [] == st.prefetched;
      }
    }
  }

  /** `position` is that of the first row of the row set, and 0 before the first row set and behind the last. */
  predicate Positioned(st: State)
    requires st.columns > 0
  {
    if st.position == 0 then st.rowSet == [] && (st.affected == 0 || Ahead(st) == [])
    else st.position + |st.rowSet| == st.affected + 1
  }

  /** A fetch that succeeds delivers the next rows; one that throws delivers none, and it throws only when
      the response is broken and the rows that are left do not reach the number that is prefetched. */
  lemma FetchKeeps(st: State, size: nat)
    requires st.columns > 0 && size > 0 && Positioned(st)
    ensures var (next, ok) := Fetch(st, size);
            var n := Min(size, |Ahead(st)|);
            next.columns == st.columns
            && (ok ==>
                  && next.rowSet == Ahead(st)[..n] && Ahead(next) == Ahead(st)[n..]
                  && next.affected == st.affected + n && Clean(next) == Clean(st) && Positioned(next)
                  && next.position == (if n == 0 then 0 else st.affected + 1) && next.rowPosition == next.position)
            && (!ok ==> !Clean(st) && |st.prefetched| < size && next.rowSet == [] && next.affected == st.affected
                        && next.prefetched == Ahead(st) + [Broken]
                        && next.stream == Stream([], st.stream.fails) && !next.finished)
            && next.stream.fails == st.stream.fails
  {
    hide Decode, Prefetch;
    var retired := Retired(st);
    assert Ahead(retired) == Ahead(st);
    if |retired.prefetched| >= size {
      MoveKeeps(st, retired, size);
    } else {
      var target := if size > PREFETCH_AT_LEAST then size else PREFETCH_AT_LEAST;
      PrefetchKeeps(retired, target);
      var (filled, ok) := Prefetch(retired, target);
      if ok {
        MoveKeeps(st, filled, size);
      }
    }
  }

  /** A fetch throws if and only if the queue is too short for it, the response is broken, and of the rows that are left
      there are fewer than are read ahead: as many as the fetch asks for, and at least 100. */
  lemma ThrowsExactly(st: State, size: nat)
    requires st.columns > 0
    ensures !Fetch(st, size).1 <==>
              |st.prefetched| < size && !Clean(st) && |Ahead(st)| < (if size > 100 then size else 100)
  {
    hide Decode, Prefetch;
    var retired := Retired(st);
    assert Ahead(retired) == Ahead(st) && Clean(retired) == Clean(st);
    if |retired.prefetched| < size {
      PrefetchKeeps(retired, if size > 100 then size else 100);
    }
  }

  lemma MoveKeeps(st: State, filled: State, size: nat)
    requires st.columns > 0 && filled.columns == st.columns && size > 0 && Positioned(st)
    requires filled == Retired(st).(stream := filled.stream, prefetched := filled.prefetched,
             finished := filled.finished)
    requires Ahead(filled) == Ahead(st) && Clean(filled) == Clean(st)
    requires |filled.prefetched| >= size || filled.prefetched == Ahead(st)
    ensures var next := Moved(filled, size);
            var n := Min(size, |Ahead(st)|);
            && next.rowSet == Ahead(st)[..n] && Ahead(next) == Ahead(st)[n..] && next.columns == st.columns
            && next.affected == st.affected + n && Clean(next) == Clean(st) && Positioned(next)
            && next.position == (if n == 0 then 0 else st.affected + 1) && next.rowPosition == next.position
            && next.stream == filled.stream
  {
    hide Decode;
    var n := Min(size, |filled.prefetched|);
    var behind := if filled.finished then [] else Wholes(Decode(filled.stream.rest, filled.columns).rows);
    assert filled.prefetched + behind == Ahead(st);
    assert n == Min(size, |Ahead(st)|);
    assert (filled.prefetched + behind)[n..] == filled.prefetched[n..] + behind;
  }

  function Sum(sizes: seq<nat>): nat {
    if sizes == [] then 0 else Sum(sizes[..|sizes| - 1]) + sizes[|sizes| - 1]
  }

  /** Fetches of these sizes, one behind the other, up to the first exception. */
  function Fetches(st: State, sizes: seq<nat>): (r: (State, bool))
    requires st.columns > 0
    ensures r.0.columns == st.columns
    decreases |sizes|
  {
    if sizes == [] then (st, true)
    else
      var (before, ok) := Fetches(st, sizes[..|sizes| - 1]);
      if !ok then (before, false)
      else Fetch(before, sizes[|sizes| - 1])
  }

  /** A result set whose columns are known and of which nothing has been fetched. */
  function Opened(stream: Stream, columns: nat): State { State(stream, columns, [], 0, 0, 0, [], false) }

  /** `to` of the rows have been delivered. */
  ghost predicate Reached(rows: seq<Queued>, clean: bool, st: State, to: nat) {
    && st.columns > 0 && to <= |rows| && Positioned(st) && Ahead(st) == rows[to..] && st.affected == to
    && Clean(st) == clean && st.rowPosition == st.position
  }

  lemma OneFetch(rows: seq<Queued>, clean: bool, st: State, to: nat, size: nat)
    requires Reached(rows, clean, st, to) && size > 0
    ensures var (next, ok) := Fetch(st, size);
            var n := Min(size, |rows| - to);
            && (ok ==> Reached(rows, clean, next, to + n) && next.rowSet == rows[to..to + n]
                       && next.position == (if n == 0 then 0 else to + 1))
            && (clean ==> ok)
  {
    hide Ahead, Fetch, Clean, Positioned;
    FetchKeeps(st, size);
    var n := Min(size, |rows| - to);
    assert rows[to..][..n] == rows[to..to + n] && rows[to..][n..] == rows[to + n..];
  }

  /** Any number of fetches of any sizes delivers the rows in their order and each of them once; the position is
      that of the first row of the set, and 0 when no row is left. All that matters is what the response holds. */
  lemma {:induction false} FetchesDeliver(stream: Stream, columns: nat, sizes: seq<nat>)
    requires columns > 0 && forall i :: 0 <= i < |sizes| ==> sizes[i] > 0
    ensures var st := Opened(stream, columns);
            var rows := Ahead(st);
            var (last, ok) := Fetches(st, sizes);
            var to := Min(|rows|, Sum(sizes));
            && (ok ==> Reached(rows, Clean(st), last, to))
            && (ok && sizes != [] ==>
                  var from := Min(|rows|, Sum(sizes[..|sizes| - 1]));
                  && last.rowSet == rows[from..to]
                  && last.position == (if from == to then 0 else from + 1))
            && (Clean(st) ==> ok)
    decreases |sizes|
  {
    hide Fetch, Ahead, Clean, Reached;
    var st := Opened(stream, columns);
    var rows := Ahead(st);
    if sizes == [] {
      NothingFetched(stream, columns);
    } else {
      var front := sizes[..|sizes| - 1];
      FetchesDeliver(stream, columns, front);
      var (before, ok) := Fetches(st, front);
      if ok {
        OneFetch(rows, Clean(st), before, Min(|rows|, Sum(front)), sizes[|sizes| - 1]);
      }
    }
  }

  lemma NothingFetched(stream: Stream, columns: nat)
    requires columns > 0
    ensures var st := Opened(stream, columns); Reached(Ahead(st), Clean(st), st, 0)
  {
    hide Ahead, Clean;
    var rows := Ahead(Opened(stream, columns));
    assert rows[0..] == rows;
  }

  /** For the response to a table: every row is delivered, and nothing is thrown. */
  lemma TableDelivered(rows: seq<Row>, columns: nat, sizes: seq<nat>)
    requires IsTable(rows, columns) && forall i :: 0 <= i < |sizes| ==> sizes[i] > 0
    ensures var (last, ok) := Fetches(Opened(Stream(Write(rows, columns), false), columns), sizes);
            var to := Min(|rows|, Sum(sizes));
            && ok && last.affected == to
            && (sizes != [] ==>
                  var from := Min(|rows|, Sum(sizes[..|sizes| - 1]));
                  last.rowSet == Wholes(rows[from..to]) && last.position == (if from == to then 0 else from + 1))
  {
    hide Decode, Fetches, Write, IsTable, Positioned, Ahead, Clean;
    var stream := Stream(Write(rows, columns), false);
    TableOpened(rows, columns);
    FetchesDeliver(stream, columns, sizes);
    if sizes != [] {
      var from, to := Min(|rows|, Sum(sizes[..|sizes| - 1])), Min(|rows|, Sum(sizes));
      assert Wholes(rows)[from..to] == Wholes(rows[from..to]);
    }
  }

  lemma TableOpened(rows: seq<Row>, columns: nat)
    requires IsTable(rows, columns)
    ensures var st := Opened(Stream(Write(rows, columns), false), columns);
            columns > 0 && Ahead(st) == Wholes(rows) && Clean(st)
  {
    hide Decode;
    TableRead(rows, columns);
    assert [] + Wholes(rows) == Wholes(rows);
  }

  // -------- behind an exception

  function Brokens(n: nat): (q: seq<Queued>)
    ensures |q| == n && forall i :: 0 <= i < n ==> q[i] == Broken
  {
    seq(n, _ => Broken)
  }

  /** Nothing is left on the wire. Behind `rows` each exception has left one broken row in the queue, and the first
      `to` of all these rows have been delivered. */
  ghost predicate Behind(rows: seq<Queued>, throws: nat, st: State, to: nat) {
    && st.columns > 0 && st.stream.rest == [] && (st.finished ==> !st.stream.fails)
    && to <= |rows| + throws && st.prefetched == (rows + Brokens(throws))[to..]
  }

  /** One fetch behind an exception: if the transfer has failed, it throws exactly when the queue does not
      suffice; if not, it never throws. */
  lemma FetchBehind(rows: seq<Queued>, throws: nat, st: State, to: nat, size: nat)
    requires Behind(rows, throws, st, to) && size > 0
    ensures var (next, ok) := Fetch(st, size);
            var all := rows + Brokens(throws);
            var n := Min(size, |all| - to);
            && next.stream.fails == st.stream.fails
            && (ok <==> !st.stream.fails || size <= |all| - to)
            && (if ok then Behind(rows, throws, next, to + n) && next.rowSet == all[to..to + n]
                else Behind(rows, throws + 1, next, to) && next.rowSet == [])
  {
    hide Decode, ValuesAt, Prefetch, Moved, Brokens;
    var retired := Retired(st);
    MovedBehind(rows, throws, retired, to, size);
    if |retired.prefetched| < size {
      PrefetchNothing(retired, if size > PREFETCH_AT_LEAST then size else PREFETCH_AT_LEAST);
      if st.stream.fails {
        OneMoreBroken(rows, throws, to);
      } else {
        MovedBehind(rows, throws, retired.(finished := true), to, size);
      }
    }
  }

  lemma OneMoreBroken(rows: seq<Queued>, throws: nat, to: nat)
    requires to <= |rows| + throws
    ensures (rows + Brokens(throws + 1))[to..] == (rows + Brokens(throws))[to..] + [Broken]
  {
    var all := rows + Brokens(throws);
    assert rows + Brokens(throws + 1) == all + [Broken];
  }

  lemma MovedBehind(rows: seq<Queued>, throws: nat, st: State, to: nat, size: nat)
    requires Behind(rows, throws, st, to)
    ensures var next := Moved(st, size);
            var all := rows + Brokens(throws);
            var n := Min(size, |all| - to);
            && next.stream == st.stream && next.rowSet == all[to..to + n]
            && Behind(rows, throws, next, to + n)
  {
    hide Brokens;
    var all := rows + Brokens(throws);
    var n := Min(size, |all| - to);
    assert all[to..][..n] == all[to..to + n] && all[to..][n..] == all[to + n..];
  }

  lemma PrefetchNothing(st: State, size: nat)
    requires st.columns > 0 && st.stream.rest == [] && |st.prefetched| < size && (st.finished ==> !st.stream.fails)
    ensures Prefetch(st, size)
            == if st.stream.fails then (st.(prefetched := st.prefetched + [Broken]), false)
                else (st.(finished := true), true)
  {
    hide ValuesAt;
    assert st.stream.(rest := []) == st.stream;
  }

  /** Fetches of these sizes, whether they throw or not. */
  function Continue(st: State, sizes: seq<nat>): (next: State)
    requires st.columns > 0
    ensures next.columns == st.columns
    decreases |sizes|
  {
    if sizes == [] then st else Fetch(Continue(st, sizes[..|sizes| - 1]), sizes[|sizes| - 1]).0
  }

  /** How many exceptions there were, the first one included, and how many rows were delivered behind it. */
  datatype Tally = Tally(throws: nat, to: nat)

  /** Behind the first exception, with `rows` rows in the queue in front of the broken one: a fetch throws when the
      transfer has failed and more rows are asked for than there are, the broken ones included. */
  function Tallied(rows: nat, fails: bool, sizes: seq<nat>): (t: Tally)
    ensures t.to <= rows + t.throws && t.throws > 0
    decreases |sizes|
  {
    if sizes == [] then Tally(1, 0)
    else
      var t, size := Tallied(rows, fails, sizes[..|sizes| - 1]), sizes[|sizes| - 1];
      if fails && size > rows + t.throws - t.to then t.(throws := t.throws + 1)
      else t.(to := t.to + Min(size, rows + t.throws - t.to))
  }

  lemma {:induction false} ContinueBehind(rows: seq<Queued>, st: State, sizes: seq<nat>)
    requires st.columns > 0 && Behind(rows, 1, st, 0) && forall i :: 0 <= i < |sizes| ==> sizes[i] > 0
    ensures var t, last := Tallied(|rows|, st.stream.fails, sizes), Continue(st, sizes);
            Behind(rows, t.throws, last, t.to) && last.stream.fails == st.stream.fails
    decreases |sizes|
  {
    hide Fetch, Behind;
    if sizes != [] {
      var front, size := sizes[..|sizes| - 1], sizes[|sizes| - 1];
      ContinueBehind(rows, st, front);
      var t := Tallied(|rows|, st.stream.fails, front);
      assert Behind(rows, t.throws, Continue(st, front), t.to);
      FetchBehind(rows, t.throws, Continue(st, front), t.to, size);
    }
  }

  /** What a fetch of `size` does when `to` of the rows and of the `throws` broken rows behind them are delivered: it
      throws if and only if the transfer has failed and fewer rows are left; otherwise it delivers the next ones, and
      among them is a broken one if and only if they reach behind the whole rows. */
  ghost predicate Serves(rows: seq<Queued>, throws: nat, to: nat, fails: bool, size: nat, r: (State, bool)) {
    var there := |rows| + throws - to;
    && there >= 0
    && (r.1 <==> !fails || size <= there)
    && r.0.rowSet == (if r.1 then (rows + Brokens(throws))[to..to + Min(size, there)] else [])
    && (Broken in r.0.rowSet <==> r.1 && there > 0 && to + size > |rows|)
  }

  lemma FetchServes(rows: seq<Queued>, throws: nat, st: State, to: nat, size: nat)
    requires Behind(rows, throws, st, to) && throws > 0 && size > 0 && Broken !in rows
    ensures Serves(rows, throws, to, st.stream.fails, size, Fetch(st, size))
  {
    hide Fetch;
    FetchBehind(rows, throws, st, to, size);
    BrokenSlice(rows, throws, to, size);
  }

  /** No row that was cut short is delivered, exactly as long as the fetches behind the first exception that succeed ask
      for no more than the whole rows of the queue. For all fetches `before` that exception, the one of `size` that
      throws, and all those behind it, of which the one of `next` is the last: it is served from the whole rows that
      were left and from one broken row for each exception. */
  lemma BrokenRowsExactly(stream: Stream, columns: nat, before: seq<nat>, size: nat, behind: seq<nat>, next: nat)
    requires columns > 0 && size > 0 && next > 0
    requires (forall i :: 0 <= i < |before| ==> before[i] > 0) && (forall i :: 0 <= i < |behind| ==> behind[i] > 0)
    requires Fetches(Opened(stream, columns), before).1 && !Fetch(Fetches(Opened(stream, columns), before).0, size).1
    ensures var failed := Fetch(Fetches(Opened(stream, columns), before).0, size).0;
            var rows := Wholes(Decode(stream.rest, columns).rows);
            var whole := rows[Min(|rows|, Sum(before))..];
            var t := Tallied(|whole|, stream.fails, behind);
            Serves(whole, t.throws, t.to, stream.fails, next, Fetch(Continue(failed, behind), next))
  {
    hide Fetch, Fetches, Ahead, Decode, Behind, Clean, Reached, Tallied, Continue, Positioned, Sum, Serves;
    var st := Fetches(Opened(stream, columns), before).0;
    var rows := Wholes(Decode(stream.rest, columns).rows);
    OpenedAhead(stream, columns);
    FetchesDeliver(stream, columns, before);
    FetchesSource(stream, columns, before);
    var whole := rows[Min(|rows|, Sum(before))..];
    DeliveredState(rows, Clean(Opened(stream, columns)), st, Min(|rows|, Sum(before)));
    FetchKeeps(st, size);
    var failed := Fetch(st, size).0;
    FirstBroken(whole, failed);
    ContinueBehind(whole, failed, behind);
    var t := Tallied(|whole|, stream.fails, behind);
    FetchServes(whole, t.throws, Continue(failed, behind), t.to, next);
  }

  /** Three bytes of a row, and then the failure of the transfer: three fetches of three rows throw, and the fourth one
      delivers three broken rows. */
  lemma BrokenRowsPileUp()
    ensures var (a, ok1) := Fetch(Opened(Stream([1, 2, 3], true), 1), 3);
            var (b, ok2) := Fetch(a, 3);
            var (c, ok3) := Fetch(b, 3);
            var (d, ok4) := Fetch(c, 3);
            !ok1 && !ok2 && !ok3 && ok4 && d.rowSet == [Broken, Broken, Broken]
  {
    hide Fetch, Behind;
    ThreeBytes();
    var a := Fetch(Opened(Stream([1, 2, 3], true), 1), 3).0;
    ThirdOfThree(a, 1);
    ThirdOfThree(Fetch(a, 3).0, 2);
    ThirdOfThree(Fetch(Fetch(a, 3).0, 3).0, 3);
  }

  lemma ThirdOfThree(st: State, throws: nat)
    requires st.columns > 0 && st.stream.fails && 1 <= throws <= 3 && Behind([], throws, st, 0)
    ensures var (next, ok) := Fetch(st, 3);
            if throws < 3 then !ok && next.stream.fails && Behind([], throws + 1, next, 0)
            else ok && next.rowSet == [Broken, Broken, Broken]
  {
    hide Fetch, Behind;
    FetchBehind([], throws, st, 0, 3);
    assert [] + Brokens(throws) == Brokens(throws) && Brokens(3)[0..3] == [Broken, Broken, Broken];
  }

  lemma ThreeBytes()
    ensures var (failed, ok) := Fetch(Opened(Stream([1, 2, 3], true), 1), 3);
            !ok && failed.stream.fails && Behind([], 1, failed, 0)
  {
    hide Int32;
    var st := Retired(Opened(Stream([1, 2, 3], true), 1));
    assert NextRow(st.stream, 1) == Failed(Stream([], true)) by { assert ValuesAt([1, 2, 3], 1) == None; }
    assert [] + [Broken] == [Broken];
    FirstBroken([], Fetch(Opened(Stream([1, 2, 3], true), 1), 3).0);
  }

  lemma DeliveredState(rows: seq<Queued>, clean: bool, st: State, to: nat)
    requires Reached(rows, clean, st, to)
    ensures st.columns > 0 && Positioned(st) && Ahead(st) == rows[to..]
  {
  }

  lemma OpenedAhead(stream: Stream, columns: nat)
    requires columns > 0
    ensures Ahead(Opened(stream, columns)) == Wholes(Decode(stream.rest, columns).rows)
  {
    hide Decode;
    var rows := Wholes(Decode(stream.rest, columns).rows);
    assert [] + rows == rows;
  }

  lemma {:induction false} FetchesSource(stream: Stream, columns: nat, sizes: seq<nat>)
    requires columns > 0 && (forall i :: 0 <= i < |sizes| ==> sizes[i] > 0) && Fetches(Opened(stream, columns), sizes).1
    ensures Fetches(Opened(stream, columns), sizes).0.stream.fails == stream.fails
    decreases |sizes|
  {
    hide Fetch, Ahead, Clean, Positioned;
    if sizes != [] {
      var front := sizes[..|sizes| - 1];
      FetchesSource(stream, columns, front);
      FetchesDeliver(stream, columns, front);
      FetchKeeps(Fetches(Opened(stream, columns), front).0, sizes[|sizes| - 1]);
    }
  }

  lemma FirstBroken(whole: seq<Queued>, st: State)
    requires st.columns > 0 && st.prefetched == whole + [Broken] && st.stream.rest == [] && !st.finished
    ensures Behind(whole, 1, st, 0)
  {
    assert Brokens(1) == [Broken] && (whole + Brokens(1))[0..] == whole + [Broken];
  }

  lemma BrokenSlice(whole: seq<Queued>, throws: nat, to: nat, size: nat)
    requires to <= |whole| + throws && throws > 0 && Broken !in whole && size > 0
    ensures var there := |whole| + throws - to;
            Broken in (whole + Brokens(throws))[to..to + Min(size, there)] <==> there > 0 && to + size > |whole|
  {
    var all, there := whole + Brokens(throws), |whole| + throws - to;
    var part := all[to..to + Min(size, there)];
    if there > 0 && to + size > |whole| {
      assert part[|part| - 1] == all[to + |part| - 1] == Broken;
    } else {
      assert forall i :: 0 <= i < |part| ==> part[i] == whole[to + i];
    }
  }

  // -------- the header

  datatype Column = Column(name: seq<Byte>, typ: seq<Byte>)

  // "name" and "type"
  const NAME: seq<Byte> := [110, 97, 109, 101]
  const TYPE: seq<Byte> := [116, 121, 112, 101]

  function TextOf(value: Value): seq<Byte> { if value.Null? then [] else value.bytes }

  function At(columns: seq<Column>, i: nat): Column { if i < |columns| then columns[i] else Column([], []) }

  /** columns_info.resize, and a name or a type for each column */
  function Described(columns: seq<Column>, kind: seq<Byte>, fields: Row): seq<Column> {
    if kind == NAME then
      seq(|fields|, i requires 0 <= i < |fields| => At(columns, i).(name := TextOf(fields[i])))
    else if kind == TYPE then
      seq(|fields|, i requires 0 <= i < |fields| => At(columns, i).(typ := TextOf(fields[i])))
    else columns
  }

  /** The header rows: the columns and what follows the header, or None for the exception. A row without
      fields ends the header. */
  function Header(s: seq<Byte>, left: int, columns: seq<Column>): Option<(seq<Column>, seq<Byte>)>
    decreases |s|
  {
    if left == 0 then Some((columns, s))
    else
      match SizeAt(s)
      case None => None
      case Some((n, rest)) =>
        if n <= 1 then Some((columns, rest))
        else
          match ValueAt(rest)
          case None => None
          case Some((kind, fields)) =>
            match ValuesAt(fields, n - 1)
            case None => None
            case Some((row, next)) => Header(next, left - 1, Described(columns, TextOf(kind), row))
  }

  function HeaderAt(s: seq<Byte>): Option<(seq<Column>, seq<Byte>)> {
    match SizeAt(s)
    case None => None
    case Some((rows, rest)) => Header(rest, rows, [])
  }

  function Names(columns: seq<Column>): Row {
    seq(|columns|, i requires 0 <= i < |columns| => Bytes(columns[i].name))
  }

  function Types(columns: seq<Column>): Row {
    seq(|columns|, i requires 0 <= i < |columns| => Bytes(columns[i].typ))
  }

  predicate WritableColumns(columns: seq<Column>) {
    && 0 < |columns| < 0x7FFF_FFFF
    && forall i :: 0 <= i < |columns| ==> |columns[i].name| < 0x8000_0000 && |columns[i].typ| < 0x8000_0000
  }

  function WriteHeaderRow(kind: seq<Byte>, row: Row): seq<Byte>
    requires |kind| < 0x8000_0000 && |row| < 0x7FFF_FFFF && WritableRow(row)
  {
    FourBytes(|row| + 1) + (WriteValue(Bytes(kind)) + WriteRow(row))
  }

  function WriteHeader(columns: seq<Column>): seq<Byte>
    requires WritableColumns(columns)
  {
    FourBytes(2) + (WriteHeaderRow(NAME, Names(columns)) + WriteHeaderRow(TYPE, Types(columns)))
  }

  lemma SizeRead(n: int, after: seq<Byte>)
    requires -0x8000_0000 <= n < 0x8000_0000
    ensures SizeAt(FourBytes(n) + after) == Some((n, after))
  {
    hide Int32, FourBytes;
    var s := FourBytes(n) + after;
    assert s[..4] == FourBytes(n) && s[4..] == after;
  }

  lemma HeaderRowRead(kind: seq<Byte>, row: Row, left: int, columns: seq<Column>, after: seq<Byte>)
    requires |kind| < 0x8000_0000 && 0 < |row| < 0x7FFF_FFFF && WritableRow(row) && left != 0
    ensures Header(WriteHeaderRow(kind, row) + after, left, columns)
            == Header(after, left - 1, Described(columns, kind, row))
  {
    hide SizeAt, FourBytes, ValueAt, WriteValue, ValuesAt, WriteRow, Described;
    var rest := WriteValue(Bytes(kind)) + (WriteRow(row) + after);
    assert WriteHeaderRow(kind, row) + after == FourBytes(|row| + 1) + rest;
    SizeRead(|row| + 1, rest);
    ValueRead(Bytes(kind), WriteRow(row) + after);
    RowRead(row, after);
  }

  /** The columns of a header are read back, and what follows the header is left. */
  lemma HeaderRead(columns: seq<Column>, after: seq<Byte>)
    requires WritableColumns(columns)
    ensures HeaderAt(WriteHeader(columns) + after) == Some((columns, after))
  {
    hide WriteHeaderRow, FourBytes, SizeAt;
    var names, types := WriteHeaderRow(NAME, Names(columns)), WriteHeaderRow(TYPE, Types(columns));
    assert WriteHeader(columns) + after == FourBytes(2) + (names + (types + after));
    SizeRead(2, names + (types + after));
    HeaderRowRead(NAME, Names(columns), 2, [], types + after);
    var named := Described([], NAME, Names(columns));
    HeaderRowRead(TYPE, Types(columns), 1, named, after);
    assert Described(named, TYPE, Types(columns)) == columns;
  }

  // -------- the result set

  class ResultSet {
    var stream: Stream
    var columns: seq<Column>
    var rowSet: seq<Queued>
    var position: nat
    var rowPosition: nat
    var affected: nat
    var prefetched: seq<Queued>
    var finished: bool

    ghost function View(): State
      reads this
    {
      State(stream, |columns|, rowSet, position, rowPosition, affected, prefetched, finished)
    }

    constructor (stream: Stream)
      ensures View() == Opened(stream, 0) && columns == []
    {
      this.stream, columns, rowSet, position, rowPosition := stream, [], [], 0, 0;
      affected, prefetched, finished := 0, [], false;
    }

    /** stream.read of `n` bytes; None for the exception. */
    method ReadBytes(n: nat) returns (bytes: Option<seq<Byte>>)
      modifies `stream
      ensures if n <= |old(stream.rest)| then bytes == Some(old(stream.rest)[..n])
              && stream == old(stream).(rest := old(stream.rest)[n..])
              else bytes == None && stream == old(stream).(rest := [])
    {
      if n > |stream.rest| {
        stream := stream.(rest := []);
        return None;
      }
      bytes := Some(stream.rest[..n]);
      stream := stream.(rest := stream.rest[n..]);
    }

    method ReadSize() returns (size: Option<int>)
      modifies `stream
      ensures var r := SizeAt(old(stream.rest));
              if r.None? then size == None && stream == old(stream).(rest := [])
              else size == Some(r.value.0) && stream == old(stream).(rest := r.value.1)
    {
      var bytes := ReadBytes(4);
      return if bytes.None? then None else Some(Int32(bytes.value));
    }

    method ReadValue() returns (value: Option<Value>)
      modifies `stream
      ensures var r := ValueAt(old(stream.rest));
              if r.None? then value == None && stream == old(stream).(rest := [])
              else value == Some(r.value.0) && stream == old(stream).(rest := r.value.1)
    {
      hide Int32;
      var size := ReadSize();
      if size.None? {
        return None;
      }
      if size.value < 0 {
        return Some(Null);
      }
      var bytes := ReadBytes(size.value);
      return if bytes.None? then None else Some(Bytes(bytes.value));
    }

    method ReadFields(n: nat) returns (row: Option<Row>)
      modifies `stream
      ensures var r := ValuesAt(old(stream.rest), n);
              if r.None? then row == None && stream == old(stream).(rest := [])
              else row == Some(r.value.0) && stream == old(stream).(rest := r.value.1)
    {
      hide ValueAt;
      var fields: Row := [];
      ContinueEnds([], ValuesAt(stream.rest, n), stream.rest);
      for i := 0 to n
        invariant |fields| == i && stream.fails == old(stream.fails)
        invariant ValuesAt(old(stream.rest), n) == Continued(fields, ValuesAt(stream.rest, n - i))
      {
        ghost var before := fields;
        var value := ReadValue();
        if value.None? {
          return None;
        }
        fields := fields + [value.value];
        ContinueOne(before, value.value, ValuesAt(stream.rest, n - i - 1));
      }
      ContinueEnds(fields, None, stream.rest);
      return Some(fields);
    }

    /** readNextRow */
    method ReadNextRow() returns (next: Option<Option<Row>>)
      requires columns != []
      modifies `stream
      ensures match NextRow(old(stream), |columns|)
              case Failed(rest) => next == None && stream == rest
              case AtEnd => next == Some(None) && stream == old(stream)
              case Got(row, rest) => next == Some(Some(row)) && stream == rest
    {
      hide ValuesAt;
      if stream.rest == [] {
        return if stream.fails then None else Some(None);
      }
      var row := ReadFields(|columns|);
      return if row.None? then None else Some(row);
    }

    method TryPrefetchRows(size: nat) returns (ok: bool)
      requires columns != []
      modifies this
      ensures columns == old(columns)
      ensures (View(), ok) == Prefetch(old(View()), size)
    {
      hide NextRow;
      while !finished && |prefetched| < size
        invariant columns == old(columns) && Prefetch(View(), size) == Prefetch(old(View()), size)
        decreases size - |prefetched|, !finished
      {
        ghost var st := View();
        var before := prefetched;
        prefetched := before + [Broken];
        var row := ReadNextRow();
        if row.None? {
          NextCases(st.stream, st.columns);
          return false;
        }
        if row.value.None? {
          prefetched := before;
          finished := true;
          NextCases(st.stream, st.columns);
        } else {
          prefetched := before + [Whole(row.value.value)];
        }
      }
      return true;
    }

    /** fetchRowSet for SQL_FETCH_NEXT; None stands for the exception. */
    method FetchRowSet(size: nat) returns (fetched: Option<nat>)
      requires columns != []
      modifies this
      ensures columns == old(columns)
      ensures var (next, ok) := Fetch(old(View()), size);
              View() == next && fetched == if ok then Some(|rowSet|) else None
    {
      hide Prefetch;
      ghost var st := View();
      Retire();
      if |prefetched| < size {
        var ok := TryPrefetchRows(if size > PREFETCH_AT_LEAST then size else PREFETCH_AT_LEAST);
        if !ok {
          return None;
        }
      }
      MoveRows(size);
      return Some(|rowSet|);
    }

    method Retire()
      modifies `rowSet, `position
      ensures View() == Retired(old(View()))
    {
      while rowSet != []
        invariant position + |rowSet| == old(position) + |old(rowSet)|
        decreases |rowSet|
      {
        rowSet := rowSet[1..];
        position := position + 1;
      }
    }

    method MoveRows(size: nat)
      requires rowSet == []
      modifies `rowSet, `prefetched, `affected, `position, `rowPosition
      ensures View() == Moved(old(View()), size)
    {
      ghost var queue := prefetched;
      var i := 0;
      while i < size && prefetched != []
        invariant i <= size && i <= |queue| && rowSet == queue[..i] && prefetched == queue[i..]
        invariant affected == old(affected) + i && position == old(position)
        decreases |prefetched|
      {
        rowSet := rowSet + [prefetched[0]];
        prefetched := prefetched[1..];
        affected := affected + 1;
        i := i + 1;
      }
      assert |prefetched| == |queue| - i && i == Min(size, |queue|);
      if rowSet == [] {
        position := 0;
      } else if position == 0 {
        position := 1;
      }
      rowPosition := position;
    }

    /** getCurrentRowPosition: 0 outside the row set. Behind every fetch that does not throw, it is the position
        of the row set. */
    function CurrentRowPosition(): (p: nat)
      reads this
      ensures rowPosition == position && (position == 0 <==> rowSet == []) ==> p == position
    {
      if rowPosition < position || rowPosition >= position + |rowSet| then 0 else rowPosition
    }

    /** The constructor of the format: the header, and whether there is anything to fetch. */
    method ReadHeader() returns (ok: bool)
      requires columns == []
      modifies `stream, `columns, `finished
      ensures ok <==> HeaderAt(old(stream.rest)).Some?
      ensures ok ==> var (cs, rest) := HeaderAt(old(stream.rest)).value;
                     columns == cs && stream == old(stream).(rest := rest) && finished == (cs == [])
    {
      hide SizeAt, ValueAt, ValuesAt, Described;
      var rows := ReadSize();
      if rows.None? {
        return false;
      }
      var left := rows.value;
      while left != 0
        invariant Header(stream.rest, left, columns) == HeaderAt(old(stream.rest)) && stream.fails == old(stream.fails)
        decreases |stream.rest|
      {
        HeaderShrinks(stream.rest);
        var n := ReadSize();
        if n.None? {
          return false;
        }
        if n.value <= 1 {
          break;
        }
        var kind := ReadValue();
        if kind.None? {
          return false;
        }
        var row := ReadFields(n.value - 1);
        if row.None? {
          return false;
        }
        columns := Described(columns, TextOf(kind.value), row.value);
        left := left - 1;
      }
      finished := columns == [];
      return true;
    }
  }

  lemma HeaderShrinks(s: seq<Byte>)
    ensures SizeAt(s).Some? ==> |SizeAt(s).value.1| < |s|
  {
  }

  /** Fields that were read, and those behind them. */
  function Continued(fields: Row, rest: Option<(Row, seq<Byte>)>): Option<(Row, seq<Byte>)> {
    if rest.None? then None else Some((fields + rest.value.0, rest.value.1))
  }

  lemma ContinueEnds(fields: Row, rest: Option<(Row, seq<Byte>)>, s: seq<Byte>)
    ensures Continued([], rest) == rest && Continued(fields, Some(([], s))) == Some((fields, s))
  {
    assert fields + [] == fields;
    assert rest.Some? ==> [] + rest.value.0 == rest.value.0;
  }

  lemma ContinueOne(fields: Row, value: Value, rest: Option<(Row, seq<Byte>)>)
    ensures Continued(fields + [value], rest)
            == Continued(fields, if rest.None? then None else Some(([value] + rest.value.0, rest.value.1)))
  {
    if rest.Some? {
      assert fields + [value] + rest.value.0 == fields + ([value] + rest.value.0);
    }
  }

  lemma NextCases(stream: Stream, columns: nat)
    ensures NextRow(stream, columns).AtEnd? ==> stream.rest == []
  {
  }
}
