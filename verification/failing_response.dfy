/** The rows of a response whose transfer fails: the body reader and the row sets together. */
module FailingResponse {
  import opened Text
  import B = BodyStream
  import C = CompressedBody
  import E = ExceptionTrailer
  import T = FailingTransfer
  import opened RowDelivery

  function BytesOf(s: string): (b: seq<Byte>)
    ensures |b| == |s|
  {
    seq(|s|, i requires 0 <= i < |s| => s[i] as int % 256)
  }

  lemma BytesOfPrefix(a: string, b: string)
    requires a <= b
    ensures BytesOf(a) <= BytesOf(b)
  {
  }

  lemma ValueAtMore(s: seq<Byte>, more: seq<Byte>)
    ensures ValueAt(s).Some? ==> ValueAt(s + more) == Some((ValueAt(s).value.0, ValueAt(s).value.1 + more))
  {
    hide Int32;
    if |s| >= 4 {
      assert (s + more)[..4] == s[..4] && (s + more)[4..] == s[4..] + more;
      var size, rest := Int32(s[..4]), s[4..];
      if 0 <= size <= |rest| {
        assert (rest + more)[..size] == rest[..size] && (rest + more)[size..] == rest[size..] + more;
      }
    }
  }

  lemma {:induction false} ValuesAtMore(s: seq<Byte>, more: seq<Byte>, n: nat)
    ensures ValuesAt(s, n).Some? ==>
              ValuesAt(s + more, n) == Some((ValuesAt(s, n).value.0, ValuesAt(s, n).value.1 + more))
    decreases n
  {
    hide ValueAt;
    if n > 0 {
      ValueAtMore(s, more);
      if ValueAt(s).Some? {
        ValuesAtMore(ValueAt(s).value.1, more, n - 1);
      }
    }
  }

  /** The rows at the head of a text are rows of every longer text. */
  lemma {:induction false} DecodeMore(s: seq<Byte>, more: seq<Byte>, columns: nat)
    requires columns > 0
    ensures Decode(s, columns).rows <= Decode(s + more, columns).rows
    decreases |s|
  {
    hide ValuesAt;
    if s != [] {
      ValuesAtMore(s, more, columns);
      var r := ValuesAt(s, columns);
      if r.Some? {
        DecodeMore(r.value.1, more, columns);
      }
    }
  }

  /** How many rows lie wholly in the first bytes of the table. */
  function RowsWithin(rows: seq<Row>, columns: nat, bytes: nat): (n: nat)
    requires IsTable(rows, columns)
    ensures n <= |rows|
  {
    if rows == [] || |WriteRow(rows[0])| > bytes then 0
    else 1 + RowsWithin(rows[1..], columns, bytes - |WriteRow(rows[0])|)
  }

  lemma RowInFront(rows: seq<Row>, columns: nat, n: nat)
    requires IsTable(rows, columns) && n < |rows|
    ensures |Write(rows[..n + 1], columns)| == |WriteRow(rows[0])| + |Write(rows[1..][..n], columns)|
  {
    assert rows[..n + 1][1..] == rows[1..][..n];
  }

  /** The first rows fit in so many bytes exactly when they are among these. */
  lemma {:induction false} RowsWithinExactly(rows: seq<Row>, columns: nat, bytes: nat, k: nat)
    requires IsTable(rows, columns) && k <= |rows|
    ensures k <= RowsWithin(rows, columns, bytes) <==> |Write(rows[..k], columns)| <= bytes
    decreases k
  {
    hide WriteRow, WritableRow;
    if k == 0 {
      assert Write(rows[..0], columns) == [];
    } else {
      RowInFront(rows, columns, k - 1);
      if |WriteRow(rows[0])| <= bytes {
        RowsWithinExactly(rows[1..], columns, bytes - |WriteRow(rows[0])|, k - 1);
      }
    }
  }

  lemma PartOfRow(row: Row, seen: seq<Byte>)
    requires WritableRow(row) && seen < WriteRow(row)
    ensures ValuesAt(seen, |row|) == None
  {
    hide ValuesAt, WriteRow, WritableRow;
    var more := WriteRow(row)[|seen|..];
    assert seen + more == WriteRow(row) + [] == WriteRow(row);
    RowRead(row, []);
    ValuesAtMore(seen, more, |row|);
  }

  /** The bytes that were seen hold the rows that lie wholly in them. */
  lemma {:induction false} RowsSeen(rows: seq<Row>, columns: nat, seen: seq<Byte>)
    requires IsTable(rows, columns) && seen <= Write(rows, columns)
    ensures Decode(seen, columns).rows == rows[..RowsWithin(rows, columns, |seen|)]
    decreases |rows|
  {
    hide ValuesAt, WriteRow, WritableRow;
    if rows != [] {
      var first, others := WriteRow(rows[0]), Write(rows[1..], columns);
      if |first| > |seen| {
        assert seen == (first + others)[..|seen|] == first[..|seen|];
        PartOfRow(rows[0], seen);
      } else {
        var rest := seen[|first|..];
        assert seen == first + rest && rest == others[..|rest|];
        RowRead(rows[0], rest);
        RowIsThere(rows[0], rest);
        RowsSeen(rows[1..], columns, rest);
        assert [rows[0]] + rows[1..][..RowsWithin(rows[1..], columns, |rest|)]
               == rows[..1 + RowsWithin(rows[1..], columns, |rest|)];
      }
    }
  }

  /** When `seen` is all that arrives, fetches of these sizes give the rows that lie wholly in it, in order from the
      first one and once each, as long as none throws. */
  ghost predicate DeliversRows(rows: seq<Row>, seen: seq<Byte>, columns: nat, sizes: seq<nat>)
    requires IsTable(rows, columns)
  {
    var n := RowsWithin(rows, columns, |seen|);
    var (last, ok) := Fetches(Opened(Stream(seen, true), columns), sizes);
    ok && sizes != [] ==>
      var from, to := Min(n, Sum(sizes[..|sizes| - 1])), Min(n, Sum(sizes));
      from <= to && last.rowSet == Wholes(rows[from..to])
  }

  lemma SumGrows(sizes: seq<nat>)
    requires sizes != []
    ensures Sum(sizes[..|sizes| - 1]) <= Sum(sizes)
  {
  }

  lemma SameSlice(whole: seq<Row>, rows: seq<Row>, from: nat, to: nat)
    requires whole <= rows && from <= to <= |whole|
    ensures Wholes(whole)[from..to] == Wholes(rows[from..to])
  {
    assert forall i :: 0 <= i < |whole| ==> whole[i] == rows[i];
  }

  lemma PrefixDelivers(seen: seq<Byte>, rows: seq<Row>, columns: nat, sizes: seq<nat>)
    requires IsTable(rows, columns) && seen <= Write(rows, columns)
    requires forall i :: 0 <= i < |sizes| ==> sizes[i] > 0
    ensures DeliversRows(rows, seen, columns, sizes)
  {
    hide Decode, Write, Fetches, Ahead, Clean, Reached, Sum, WritableRow, Wholes, Opened, RowsWithin;
    var stream, whole := Stream(seen, true), Decode(seen, columns).rows;
    RowsSeen(rows, columns, seen);
    OpenedAhead(stream, columns);
    FetchesDeliver(stream, columns, sizes);
    if sizes != [] {
      SumGrows(sizes);
      SameSlice(whole, rows, Min(|whole|, Sum(sizes[..|sizes| - 1])), Min(|whole|, Sum(sizes)));
    }
  }

  /** When the transfer of a table fails behind any part of it, then, for every chunking and for all calls of the body
      reader: whatever bytes it has handed out, the row sets hold the rows of the table that lie wholly in them, and the
      failure carries the server's message exactly when the message is clear. */
  lemma FailingTableDelivers(
      s: B.Setup, b: B.Body, calls: seq<B.Call>, data: string, message: string, rows: seq<Row>, columns: nat,
      sizes: seq<nat>)
    requires B.Ok(s, b) && s.Plain() && s.outcome != 0 && b.delivered == ""
    requires b.Total() == data + E.Appended(s.tag, message) && |E.Appended(s.tag, message)| <= 32768
    requires IsTable(rows, columns) && BytesOf(data) <= Write(rows, columns)
    requires forall i :: 0 <= i < |sizes| ==> sizes[i] > 0
    ensures B.Recovered("", B.Run(s, b, calls).1, data, message, E.IsClear(s.tag, message))
    ensures DeliversRows(rows, BytesOf(B.DataOf(B.Run(s, b, calls).1)), columns, sizes)
  {
    hide B.Run, B.Recovered, Decode, Write, IsTable, DeliversRows, B.Ok, EndsInDigit, Occurs;
    if s.tag != "" {
      B.ExceptionRecovered(s, b, calls, data, message);
    } else {
      B.MarkedExceptionRecovered(s, b, calls, data, message);
    }
    DataIsPrefix(B.Run(s, b, calls).1, data, message, E.IsClear(s.tag, message));
    BytesOfPrefix(B.DataOf(B.Run(s, b, calls).1), data);
    PrefixDelivers(BytesOf(B.DataOf(B.Run(s, b, calls).1)), rows, columns, sizes);
  }

  lemma DataIsPrefix(answers: seq<B.Answer>, data: string, message: string, clear: bool)
    requires B.Recovered("", answers, data, message, clear)
    ensures B.DataOf(answers) <= data
  {
    assert "" + B.DataOf(answers) == B.DataOf(answers);
  }

  /** Once the reader has got the exception, it has got exactly the data in front of the last chunk without the last
      32 KiB in front of that, and so the rows that lie wholly in it. */
  lemma RowsBeforeException(
      s: B.Setup, b: B.Body, calls: seq<B.Call>, data: string, message: string, rows: seq<Row>, columns: nat,
      sizes: seq<nat>)
    requires B.Ok(s, b) && s.Plain() && s.outcome != 0 && b.delivered == "" && !b.Done() && b.error.None?
    requires b.Total() == data + E.Appended(s.tag, message) && |E.Appended(s.tag, message)| <= 32768
    requires IsTable(rows, columns) && BytesOf(data) <= Write(rows, columns)
    requires forall i :: 0 <= i < |sizes| ==> sizes[i] > 0
    requires exists i :: 0 <= i < |calls| && B.Run(s, b, calls).1[i].Failed?
    ensures var shown := T.Shown(|b.Total()|, |b.incoming[|b.incoming| - 1]|);
            && shown <= |data| && B.DataOf(B.Run(s, b, calls).1) == data[..shown]
            && DeliversRows(rows, BytesOf(data[..shown]), columns, sizes)
  {
    hide B.Run, B.Recovered, B.DataOf, Decode, Write, IsTable, DeliversRows, B.Ok, E.IsClear, E.Appended, T.Shown;
    FailingTableDelivers(s, b, calls, data, message, rows, columns, sizes);
    T.ShownExactly(s, b, calls);
    var answers := B.Run(s, b, calls).1;
    DataIsPrefix(answers, data, message, E.IsClear(s.tag, message));
    assert "" + B.DataOf(answers) == B.DataOf(answers);
  }

  /** The same for a compressed response. */
  lemma CompressedTableDelivers(
      s: B.Setup, b: B.Body, calls: seq<B.Call>, data: string, message: string, rows: seq<Row>, columns: nat,
      sizes: seq<nat>)
    requires B.Ok(s, b) && b.error.None? && b.delivered == "" && |message| <= U64_MAX
    requires C.Fails(s, b.Total(), data, E.Appended(s.tag, message))
    requires IsTable(rows, columns) && BytesOf(data) <= Write(rows, columns)
    requires forall i :: 0 <= i < |sizes| ==> sizes[i] > 0
    ensures B.Recovered("", B.Run(s, b, calls).1, data, message, E.IsClear(s.tag, message))
    ensures DeliversRows(rows, BytesOf(B.DataOf(B.Run(s, b, calls).1)), columns, sizes)
  {
    hide B.Run, B.Recovered, Decode, Write, IsTable, DeliversRows, B.Ok, C.Fails, E.IsClear, E.Appended;
    C.CompressedExceptionRecovered(s, b, calls, data, message);
    DataIsPrefix(B.Run(s, b, calls).1, data, message, E.IsClear(s.tag, message));
    BytesOfPrefix(B.DataOf(B.Run(s, b, calls).1), data);
    PrefixDelivers(BytesOf(B.DataOf(B.Run(s, b, calls).1)), rows, columns, sizes);
  }
}
