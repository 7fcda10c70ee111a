/** A job's history (domain/History.go): an append-only log of dated
    messages and its rendering as text, one line per entry. The list is a
    value, as it is inside a Job; Add returns the extended list. */
module History {
  import opened Common
  import opened GoStrings

  datatype HistoryItem = HistoryItem(date: Time, message: string)

  /** The rendering of one entry: the date in the API layout, ": ", the
      message and a newline. `format` stands for time.Format with
      date.ApiDateLayout. */
  function Line(item: HistoryItem, format: Time -> string): string
  {
    format(item.date) + ": " + item.message + "\n"
  }

  /** The lines of all entries, in entry order. */
  function Render(entries: seq<HistoryItem>, format: Time -> string): string
    decreases |entries|
  {
    if |entries| == 0 then ""
    else Render(entries[..|entries| - 1], format) + Line(entries[|entries| - 1], format)
  }

  datatype HistoryList = HistoryList(entries: seq<HistoryItem>) {

    /** Appends the entry (date, msg). */
    function Add(date: Time, msg: string): (h: HistoryList)
      ensures |h.entries| == |entries| + 1
      ensures h.entries[..|entries|] == entries
      ensures h.entries[|entries|] == HistoryItem(date, msg)
    {
      HistoryList(entries + [HistoryItem(date, msg)])
    }

    /** Appends msg dated `now`, the local clock reading the caller passes in. */
    function AddNow(now: Time, msg: string): (h: HistoryList)
      ensures |h.entries| == |entries| + 1
      ensures h.entries[..|entries|] == entries
      ensures h.entries[|entries|] == HistoryItem(now, msg)
    {
      Add(now, msg)
    }

    /** The text of the whole log, built line by line. */
    method ToString(format: Time -> string) returns (history: string)
      ensures history == Render(entries, format)
    {
      history := "";
      var i := 0;
      while i < |entries|
        invariant 0 <= i <= |entries|
        invariant history == Render(entries[..i], format)
      {
        assert entries[..i + 1][..i] == entries[..i];
        history := history + format(entries[i].date) + ": " + entries[i].message + "\n";
        i := i + 1;
      }
      assert entries[..i] == entries;
    }
  }

  /** The empty log renders as "". */
  lemma RenderEmpty(format: Time -> string)
    ensures Render(HistoryList([]).entries, format) == ""
  {
  }

  /** A one-entry log renders as that entry's line. */
  lemma RenderOne(item: HistoryItem, format: Time -> string)
    ensures Render([item], format) == Line(item, format)
  {
    assert [item][..0] == [];
  }

  /** Adding an entry appends exactly its line to the rendering. */
  lemma RenderAdd(h: HistoryList, date: Time, msg: string, format: Time -> string)
    ensures Render(h.Add(date, msg).entries, format) == Render(h.entries, format) + Line(HistoryItem(date, msg), format)
  {
    var e := h.Add(date, msg).entries;
    assert e[..|e| - 1] == h.entries;
  }

  /** The rendering of a concatenation is the concatenation of renderings. */
  lemma {:induction false} RenderConcat(a: seq<HistoryItem>, b: seq<HistoryItem>, format: Time -> string)
    ensures Render(a + b, format) == Render(a, format) + Render(b, format)
    decreases |b|
  {
    if |b| == 0 {
      assert a + b == a;
    } else {
      var ab, front := a + b, b[..|b| - 1];
      var last := Line(b[|b| - 1], format);
      assert ab[..|ab| - 1] == a + front;
      assert ab[|ab| - 1] == b[|b| - 1];
      assert Render(ab, format) == Render(a + front, format) + last;
      RenderConcat(a, front, format);
      assert Render(b, format) == Render(front, format) + last;
      ConcatAssoc(Render(a, format), Render(front, format), last);
    }
  }

  lemma ConcatAssoc(x: string, y: string, z: string)
    ensures (x + y) + z == x + (y + z)
  {
  }

  /** When no message and no formatted date holds a newline, the rendering
      has exactly one line per entry. */
  lemma {:induction false} RenderLineCount(entries: seq<HistoryItem>, format: Time -> string)
    requires forall k :: 0 <= k < |entries| ==> '\n' !in entries[k].message && '\n' !in format(entries[k].date)
    ensures Count(Render(entries, format), '\n') == |entries|
    decreases |entries|
  {
    if |entries| > 0 {
      var last := entries[|entries| - 1];
      RenderLineCount(entries[..|entries| - 1], format);
      CountConcat(Render(entries[..|entries| - 1], format), Line(last, format), '\n');
      CountConcat(format(last.date) + ": " + last.message, "\n", '\n');
      CountConcat(format(last.date) + ": ", last.message, '\n');
      CountConcat(format(last.date), ": ", '\n');
      CountAbsent(format(last.date), '\n');
      CountAbsent(last.message, '\n');
    }
  }
}
