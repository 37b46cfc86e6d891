/**
  Managing the keys of a multi-key channel: the status view and its pages, and the deletions that
  re-index the status maps.  Keys live in one text, so a deletion also writes and re-reads them.
 */
module MultiKeys {
  import opened Options
  import opened DelimitedText

  const ENABLED := 1
  const AUTO_DISABLED := 3
  const DEFAULT_PAGE_SIZE := 100

  datatype Key = Key(text: string)
  datatype Reason = Reason(text: string)
  const NO_REASON := Reason("")

  /** Statuses, disabling times and reasons by key position; absent means enabled, zero and blank. */
  datatype Info = Info(status: map<int, int>, time: map<int, int>, reason: map<int, Reason>)
  const NO_INFO := Info(map[], map[], map[])

  /** One line of the status view; its position is the key's index. */
  datatype Row = Row(key: Key, status: int, time: int, reason: Reason)

  function StatusAt(info: Info, i: int): int {
    if i in info.status then info.status[i] else ENABLED
  }

  function RowAt(key: Key, info: Info, i: int): Row {
    if StatusAt(info, i) == ENABLED then Row(key, ENABLED, 0, NO_REASON)
    else Row(key, StatusAt(info, i),
             if i in info.time then info.time[i] else 0,
             if i in info.reason then info.reason[i] else NO_REASON)
  }

  function Rows(keys: seq<Key>, info: Info): seq<Row> {
    seq(|keys|, i requires 0 <= i < |keys| => RowAt(keys[i], info, i))
  }

  // ---------------------------------------------------------------- deleting

  /** What a deletion is asked to drop: the key at one index, or every automatically disabled key. */
  datatype Target = OneKey(index: int) | AutoDisabled

  predicate Drops(t: Target, info: Info, i: int) {
    match t
    case OneKey(index) => i == index
    case AutoDisabled => StatusAt(info, i) == AUTO_DISABLED
  }

  /** The view without the dropped keys. */
  function Surviving(t: Target, keys: seq<Key>, info: Info, n: nat): seq<Row>
    requires n <= |keys|
  {
    if n == 0 then []
    else
      var front := Surviving(t, keys, info, n - 1);
      if Drops(t, info, n - 1) then front else front + [RowAt(keys[n - 1], info, n - 1)]
  }

  /** The keys that stay, and how many of the first `n` do. */
  function Remaining(t: Target, keys: seq<Key>, info: Info, n: nat): seq<Key>
    requires n <= |keys|
  {
    if n == 0 then []
    else
      var front := Remaining(t, keys, info, n - 1);
      if Drops(t, info, n - 1) then front else front + [keys[n - 1]]
  }

  function Survivors(t: Target, info: Info, n: nat): nat {
    if n == 0 then 0 else Survivors(t, info, n - 1) + if Drops(t, info, n - 1) then 0 else 1
  }

  /** Copies what is known about key `i` to the new index `n`; `visible` skips what the view hides. */
  function Copied(to: Info, n: int, from: Info, i: int, visible: bool): Info {
    var kept := !visible || StatusAt(from, i) != ENABLED;
    Info(
      if i in from.status && from.status[i] != ENABLED then to.status[n := from.status[i]] else to.status,
      if kept && i in from.time then to.time[n := from.time[i]] else to.time,
      if kept && i in from.reason then to.reason[n := from.reason[i]] else to.reason)
  }

  /** What is known about the surviving keys, at their new positions. */
  function Reindexed(t: Target, info: Info, n: nat): Info {
    if n == 0 then NO_INFO
    else
      var front := Reindexed(t, info, n - 1);
      if Drops(t, info, n - 1) then front else Copied(front, Survivors(t, info, n - 1), info, n - 1, t.AutoDisabled?)
  }

  ghost predicate Below(info: Info, n: int) {
    && (forall i | i in info.status :: i < n)
    && (forall i | i in info.time :: i < n)
    && (forall i | i in info.reason :: i < n)
  }

  lemma CopiedRow(to: Info, n: int, from: Info, i: int, visible: bool, key: Key)
    requires Below(to, n)
    ensures var info := Copied(to, n, from, i, visible);
            && Below(info, n + 1)
            && RowAt(key, info, n) == RowAt(key, from, i)
            && forall j, k | j < n :: RowAt(k, info, j) == RowAt(k, to, j)
  {
  }

  lemma RowsMore(keys: seq<Key>, info: Info, key: Key, info': Info)
    requires forall j, k | j < |keys| :: RowAt(k, info', j) == RowAt(k, info, j)
    ensures Rows(keys + [key], info') == Rows(keys, info) + [RowAt(key, info', |keys|)]
  {
  }

  lemma NothingKnown()
    ensures Rows([], NO_INFO) == [] && Below(NO_INFO, 0)
  {
  }

  /** Re-indexing keeps the row of every surviving key, in order. */
  lemma {:induction false} ReindexedRows(t: Target, keys: seq<Key>, info: Info, n: nat)
    requires n <= |keys|
    ensures |Remaining(t, keys, info, n)| == Survivors(t, info, n)
    ensures Below(Reindexed(t, info, n), Survivors(t, info, n))
    ensures Rows(Remaining(t, keys, info, n), Reindexed(t, info, n)) == Surviving(t, keys, info, n)
  {
    hide Below, RowAt, Drops, Rows, Copied;
    if n == 0 {
      NothingKnown();
    } else {
      ReindexedRows(t, keys, info, n - 1);
      if !Drops(t, info, n - 1) {
        var front, kept := Remaining(t, keys, info, n - 1), Reindexed(t, info, n - 1);
        CopiedRow(kept, |front|, info, n - 1, t.AutoDisabled?, keys[n - 1]);
        RowsMore(front, kept, keys[n - 1], Copied(kept, |front|, info, n - 1, t.AutoDisabled?));
      }
    }
  }

  /** The rows that survive are those at the positions not asked for: all but one, or all not automatically disabled. */
  lemma {:induction false} SurvivingExact(t: Target, keys: seq<Key>, info: Info, n: nat) returns (at: seq<nat>)
    requires n <= |keys|
    ensures var rows := Surviving(t, keys, info, n);
            && |at| == |rows|
            && (forall a | 0 <= a < |at| :: Stays(t, keys, info, n, at[a]) && rows[a] == Rows(keys, info)[at[a]])
            && (forall a, b | 0 <= a < b < |at| :: at[a] < at[b])
            && (forall i: nat | Stays(t, keys, info, n, i) :: i in at)
  {
    at := [];
    if n > 0 {
      at := SurvivingExact(t, keys, info, n - 1);
      hide RowAt;
      if !Drops(t, info, n - 1) {
        at := at + [n - 1];
        StaysLast(t, keys, info, n);
      }
    }
  }

  lemma StaysLast(t: Target, keys: seq<Key>, info: Info, n: nat)
    requires 0 < n <= |keys| && !Drops(t, info, n - 1)
    ensures Stays(t, keys, info, n, n - 1)
  {
  }

  /** The key at `i` is among the first `n` and its row is not one to delete. */
  predicate Stays(t: Target, keys: seq<Key>, info: Info, n: nat, i: nat)
    requires n <= |keys|
  {
    && i < n
    && match t
       case OneKey(index) => i != index
       case AutoDisabled => Rows(keys, info)[i].status != 3
  }

  /** A row shows the key, its recorded status or enabled, and for a disabled key its recorded time and reason. */
  lemma RowShows(parse: Parser, s: Stored, i: nat)
    requires i < |ReadKeys(parse, s.text)|
    ensures var row := View(parse, s)[i];
            && row.key == ReadKeys(parse, s.text)[i]
            && row.status == (if i in s.info.status then s.info.status[i] else 1)
            && (row.status != 1 && i in s.info.time ==> row.time == s.info.time[i])
            && (row.status != 1 && i in s.info.reason ==> row.reason == s.info.reason[i])
            && (row.status == 1 || i !in s.info.time ==> row.time == 0)
            && (row.status == 1 || i !in s.info.reason ==> row.reason.text == "")
  {
  }

  // ---------------------------------------------------------------- keys as one text

  function TotalLength(keys: seq<Key>): nat {
    if keys == [] then 0 else |keys[0].text| + TotalLength(keys[1..])
  }

  /** An array's text has room for its elements, the commas between them and the brackets. */
  predicate HasRoom(text: string, parsed: Option<seq<Key>>) {
    parsed.Some? ==> TotalLength(parsed.value) + |parsed.value| < |text|
  }

  /** What JSON decoding makes of a text: the raw elements of an array, if it is one. */
  type Parser = parse: string -> Option<seq<Key>> | forall text :: HasRoom(text, parse(text)) witness (text: string) => None

  /** The keys a text holds: a JSON array when `parse` finds one, otherwise its lines. */
  function ReadKeys(parse: Parser, text: string): seq<Key> {
    if text == "" then []
    else
      var parsed := parse(text);
      if parsed.Some? then parsed.value else Wrap(Split(Trim(text, '\n'), '\n'))
  }

  function Wrap(parts: seq<string>): seq<Key> {
    seq(|parts|, i requires 0 <= i < |parts| => Key(parts[i]))
  }

  function Texts(keys: seq<Key>): seq<string> {
    seq(|keys|, i requires 0 <= i < |keys| => keys[i].text)
  }

  function Written(keys: seq<Key>): string {
    Join(Texts(keys), '\n')
  }

  // ---------------------------------------------------------------- what is stored

  datatype Stored = Stored(text: string, size: int, info: Info)

  /** The status view of a stored channel. */
  function View(parse: Parser, s: Stored): seq<Row> {
    Rows(ReadKeys(parse, s.text), s.info)
  }

  /** The recount made on saving; unlike reading, it takes an empty array for lines. */
  function CountKeys(parse: Parser, text: string): nat {
    if text == "" then 0
    else
      var parsed := parse(text);
      if parsed.Some? && parsed.value != [] then |parsed.value| else |Split(Trim(text, '\n'), '\n')|
  }

  /** Drops the statuses past the last key. */
  function Cleaned(info: Info, n: int): Info {
    info.(status := map i | i in info.status && i < n :: info.status[i])
  }

  /** Saving keeps the old text when the new one is empty, and recounts what is stored. */
  function Saved(parse: Parser, s: Stored, text: string, info: Info): Stored {
    var stored := if text != "" then text else s.text;
    Stored(stored, CountKeys(parse, stored), Cleaned(info, CountKeys(parse, stored)))
  }

  function Deleted(parse: Parser, s: Stored, t: Target): Stored {
    var keys := ReadKeys(parse, s.text);
    Saved(parse, s, Written(Remaining(t, keys, s.info, |keys|)), Reindexed(t, s.info, |keys|))
  }

  class Channel {
    const parse: Parser
    var key: string
    var size: int
    var info: Info

    ghost function Value(): Stored
      reads this
    {
      Stored(key, size, info)
    }

    constructor (parse: Parser, key: string, size: int, info: Info)
      ensures this.parse == parse && Value() == Stored(key, size, info)
    {
      this.parse, this.key, this.size, this.info := parse, key, size, info;
    }

    /** The loop shared by the deletions: surviving keys with their details at new positions. */
    method Filter(t: Target) returns (remaining: seq<Key>, kept: Info, deleted: nat)
      ensures var keys := ReadKeys(parse, key);
              && remaining == Remaining(t, keys, info, |keys|) && kept == Reindexed(t, info, |keys|)
              && |remaining| + deleted == |keys|
              && Rows(remaining, kept) == Surviving(t, keys, info, |keys|)
    {
      var keys := ReadKeys(parse, key);
      remaining, kept, deleted := [], NO_INFO, 0;
      for i := 0 to |keys|
        invariant |remaining| + deleted == i && |remaining| == Survivors(t, info, i)
        invariant remaining == Remaining(t, keys, info, i) && kept == Reindexed(t, info, i)
      {
        if Drops(t, info, i) {
          deleted := deleted + 1;
        } else {
          kept := Copied(kept, |remaining|, info, i, t.AutoDisabled?);
          remaining := remaining + [keys[i]];
        }
      }
      ReindexedRows(t, keys, info, |keys|);
    }

    /** Writes the channel back; an empty key text is not written. */
    method Update(text: string, kept: Info)
      modifies this
      ensures Value() == Saved(parse, old(Value()), text, kept)
    {
      if text != "" {
        key := text;
      }
      size := CountKeys(parse, key);
      info := Cleaned(kept, size);
    }

    /** Deletes the key at an index, unless the index is out of range or no key would remain. */
    method DeleteKey(index: int) returns (ok: bool)
      modifies this
      ensures ok <==> && 0 <= index < old(size)
                      && old(Surviving(OneKey(index), ReadKeys(parse, key), info, |ReadKeys(parse, key)|)) != []
      ensures Value() == if ok then Deleted(parse, old(Value()), OneKey(index)) else old(Value())
    {
      if index < 0 || index >= size {
        return false;
      }
      var remaining, kept, _ := Filter(OneKey(index));
      assert |Rows(remaining, kept)| == |remaining|;
      if remaining == [] {
        return false;
      }
      Update(Written(remaining), kept);
      return true;
    }

    /** Deletes the automatically disabled keys, if there are any, and reports how many. */
    method DeleteDisabledKeys() returns (deleted: nat)
      modifies this
      ensures deleted == |old(View(parse, Value()))| - |old(Surviving(AutoDisabled, ReadKeys(parse, key), info, |ReadKeys(parse, key)|))|
      ensures Value() == if deleted > 0 then Deleted(parse, old(Value()), AutoDisabled) else old(Value())
    {
      var remaining, kept, n := Filter(AutoDisabled);
      assert |Rows(remaining, kept)| == |remaining|;
      if n > 0 {
        Update(Written(remaining), kept);
      }
      return n;
    }
  }

  // ---------------------------------------------------------------- when written keys are read back

  /** The written keys are read back unchanged. */
  ghost predicate ReadsBack(parse: Parser, keys: seq<Key>) {
    ReadKeys(parse, Written(keys)) == keys
  }

  lemma TextsOfWrap(parts: seq<string>, keys: seq<Key>)
    ensures Wrap(parts) == keys <==> parts == Texts(keys)
  {
    if Wrap(parts) == keys {
      assert |parts| == |keys|;
      forall i | 0 <= i < |parts| ensures parts[i] == Texts(keys)[i] {
        assert Wrap(parts)[i] == keys[i];
      }
    }
    if parts == Texts(keys) {
      assert forall i | 0 <= i < |keys| :: Wrap(parts)[i] == keys[i];
    }
  }

  lemma {:induction false} WrittenLength(keys: seq<Key>)
    requires keys != []
    ensures |Written(keys)| == TotalLength(keys) + |keys| - 1
    decreases |keys|
  {
    if |keys| > 1 {
      WrittenLength(keys[1..]);
      assert Texts(keys)[1..] == Texts(keys[1..]);
    }
  }

  /** Keys joined by line breaks are too short to be the array of those keys. */
  lemma ArrayNotReadBack(parse: Parser, keys: seq<Key>)
    requires keys != [] && parse(Written(keys)).Some?
    ensures parse(Written(keys)).value != keys
  {
    WrittenLength(keys);
    assert HasRoom(Written(keys), parse(Written(keys)));
  }

  /**
    Keys are read back exactly when there are none, or none holds a line break, neither the first
    nor the last is empty and the text is not taken for a JSON array.
   */
  lemma ReadsBackIff(parse: Parser, keys: seq<Key>)
    ensures ReadsBack(parse, keys) <==> keys == [] || (parse(Written(keys)).None? && Storable(Texts(keys), '\n'))
  {
    var parts, text := Texts(keys), Written(keys);
    if text != "" {
      if parse(text).Some? {
        ArrayNotReadBack(parse, keys);
      }
      StoredIffStorable(parts, '\n');
      TextsOfWrap(Split(Trim(text, '\n'), '\n'), keys);
    } else if keys != [] {
      JoinEdges(parts, '\n');
    }
  }

  // ---------------------------------------------------------------- the view after a deletion

  lemma RowsTellKeys(a: seq<Key>, b: seq<Key>, info: Info)
    ensures Rows(a, info) == Rows(b, info) <==> a == b
  {
    if Rows(a, info) == Rows(b, info) {
      assert |a| == |Rows(a, info)| == |b|;
      forall i | 0 <= i < |a| ensures a[i] == b[i] {
        assert Rows(a, info)[i].key == a[i] && Rows(b, info)[i].key == b[i];
      }
    }
  }

  /** Dropping statuses past the recount hides nothing: the view shows the keys with what was kept. */
  lemma CleanedRows(parse: Parser, text: string, info: Info)
    ensures Rows(ReadKeys(parse, text), Cleaned(info, CountKeys(parse, text))) == Rows(ReadKeys(parse, text), info)
  {
    var keys, n := ReadKeys(parse, text), CountKeys(parse, text);
    assert keys == [] || |keys| == n;
    hide ReadKeys, CountKeys;
    forall i | 0 <= i < |keys| ensures RowAt(keys[i], Cleaned(info, n), i) == RowAt(keys[i], info, i) {
    }
  }

  /** What a caller can check before a deletion: the text to write holds the remaining keys as its lines. */
  ghost predicate Preserves(parse: Parser, s: Stored, t: Target) {
    var keys := ReadKeys(parse, s.text);
    var remaining := Remaining(t, keys, s.info, |keys|);
    if Written(remaining) == "" then remaining == keys
    else parse(Written(remaining)).None? && Storable(Texts(remaining), '\n')
  }

  /**
    A deletion leaves a view of exactly the surviving rows, in order, if and only if the text to
    write is not empty, is not taken for an array, and holds the remaining keys as its lines.
    An empty text is not written, which is right only when nothing is dropped.
   */
  lemma ViewPreservedIff(parse: Parser, s: Stored, t: Target)
    ensures var keys := ReadKeys(parse, s.text);
            View(parse, Deleted(parse, s, t)) == Surviving(t, keys, s.info, |keys|) <==> Preserves(parse, s, t)
  {
    var keys := ReadKeys(parse, s.text);
    var remaining, kept := Remaining(t, keys, s.info, |keys|), Reindexed(t, s.info, |keys|);
    var after := Deleted(parse, s, t);
    ReindexedRows(t, keys, s.info, |keys|);
    CleanedRows(parse, after.text, kept);
    ReadsBackIff(parse, remaining);
    RowsTellKeys(ReadKeys(parse, after.text), remaining, kept);
    assert Written([]) == "";
  }

  /** With every key automatically disabled the deletion reports success and all of them come back, enabled. */
  lemma AllDisabledComeBack(parse: Parser, s: Stored)
    requires var keys := ReadKeys(parse, s.text); forall i | 0 <= i < |keys| :: StatusAt(s.info, i) == AUTO_DISABLED
    ensures var keys, after := ReadKeys(parse, s.text), Deleted(parse, s, AutoDisabled);
            && Surviving(AutoDisabled, keys, s.info, |keys|) == []
            && after.text == s.text
            && View(parse, after) == seq(|keys|, i requires 0 <= i < |keys| => Row(keys[i], ENABLED, 0, NO_REASON))
  {
    var keys := ReadKeys(parse, s.text);
    NoneSurvive(keys, s.info, |keys|);
    assert Written([]) == "";
    CleanedRows(parse, s.text, NO_INFO);
  }

  lemma {:induction false} NoneSurvive(keys: seq<Key>, info: Info, n: nat)
    requires n <= |keys| && forall i | 0 <= i < n :: StatusAt(info, i) == AUTO_DISABLED
    ensures Remaining(AutoDisabled, keys, info, n) == [] && Surviving(AutoDisabled, keys, info, n) == []
    ensures Reindexed(AutoDisabled, info, n) == NO_INFO
  {
    if n > 0 {
      NoneSurvive(keys, info, n - 1);
    }
  }

  const PRETTY := "{\n}"
  const PRETTY_ARRAY := "[{\n},{\n}]"

  /**
    A channel whose text is an array of two objects printed over several lines.  Deleting the second
    should leave one row; the first object is written bare, and its lines come back as two keys.
   */
  lemma PrettyKeySplits(parse: Parser, info: Info)
    requires parse(PRETTY_ARRAY) == Some([Key(PRETTY), Key(PRETTY)]) && parse(PRETTY).None?
    ensures var s := Stored(PRETTY_ARRAY, 2, info);
            && Surviving(OneKey(1), ReadKeys(parse, s.text), info, 2) == [RowAt(Key(PRETTY), info, 0)]
            && ReadKeys(parse, Deleted(parse, s, OneKey(1)).text) == [Key("{"), Key("}")]
            && |View(parse, Deleted(parse, s, OneKey(1)))| == 2
  {
    var keys := [Key(PRETTY), Key(PRETTY)];
    assert Remaining(OneKey(1), keys, info, 2) == [Key(PRETTY)] by {
      assert Remaining(OneKey(1), keys, info, 1) == [Key(PRETTY)];
    }
    assert Surviving(OneKey(1), keys, info, 2) == [RowAt(Key(PRETTY), info, 0)] by {
      assert Surviving(OneKey(1), keys, info, 1) == [RowAt(Key(PRETTY), info, 0)];
    }
    assert Texts([Key(PRETTY)]) == [PRETTY];
    assert Written([Key(PRETTY)]) == PRETTY;
    PrettyLines();
  }

  lemma PrettyLines()
    ensures Wrap(Split(Trim(PRETTY, '\n'), '\n')) == [Key("{"), Key("}")]
  {
    assert TrimLeft(PRETTY, '\n') == PRETTY && Trim(PRETTY, '\n') == PRETTY;
    assert Find("}", '\n', 0) == 1 && Split("}", '\n') == ["}"];
    assert PRETTY[1] == '\n' && Find(PRETTY, '\n', 0) == 1;
    assert PRETTY[..1] == "{" && PRETTY[2..] == "}";
    assert Split(PRETTY, '\n') == ["{", "}"];
  }

  // ---------------------------------------------------------------- pages of the view

  datatype Line = Line(index: int, row: Row)

  /** The rows of one status, or all of them, with their positions. */
  function Filtered(rows: seq<Row>, status: Option<int>, n: nat): seq<Line>
    requires n <= |rows|
  {
    if n == 0 then []
    else
      var front := Filtered(rows, status, n - 1);
      if HasStatus(rows[n - 1], status) then front + [Line(n - 1, rows[n - 1])] else front
  }

  predicate HasStatus(r: Row, status: Option<int>) {
    status.None? || r.status == status.value
  }

  predicate IsLine(l: Line, rows: seq<Row>, status: Option<int>, n: nat) {
    0 <= l.index < n <= |rows| && l.row == rows[l.index] && HasStatus(l.row, status)
  }

  /** Rows of the status only, each with its position, in order. */
  ghost predicate Lists(f: seq<Line>, rows: seq<Row>, status: Option<int>, n: nat) {
    && (forall a | 0 <= a < |f| :: IsLine(f[a], rows, status, n))
    && (forall a, b | 0 <= a < b < |f| :: f[a].index < f[b].index)
  }

  lemma ListsMore(f: seq<Line>, rows: seq<Row>, status: Option<int>, n: nat)
    requires n < |rows| && Lists(f, rows, status, n)
    ensures Lists(f, rows, status, n + 1)
    ensures HasStatus(rows[n], status) ==> Lists(f + [Line(n, rows[n])], rows, status, n + 1)
  {
  }

  lemma {:induction false} FilteredSound(rows: seq<Row>, status: Option<int>, n: nat)
    requires n <= |rows|
    ensures Lists(Filtered(rows, status, n), rows, status, n)
  {
    if n > 0 {
      FilteredSound(rows, status, n - 1);
      ListsMore(Filtered(rows, status, n - 1), rows, status, n - 1);
    }
  }

  /** Every row of the status is in the filtered list. */
  lemma {:induction false} FilteredComplete(rows: seq<Row>, status: Option<int>, n: nat, i: nat) returns (a: nat)
    requires i < n <= |rows| && HasStatus(rows[i], status)
    ensures a < |Filtered(rows, status, n)| && Filtered(rows, status, n)[a] == Line(i, rows[i])
  {
    hide HasStatus;
    if i < n - 1 {
      a := FilteredComplete(rows, status, n - 1, i);
    } else {
      a := |Filtered(rows, status, n - 1)|;
    }
  }

  function PageSize(requested: int): (size: nat)
    ensures size > 0
  {
    if requested <= 0 then DEFAULT_PAGE_SIZE else requested
  }

  function PageCount(total: nat, size: nat): (n: nat)
    requires size > 0
    ensures n > 0
  {
    var n := (total + size - 1) / size;
    if n == 0 then 1 else n
  }

  /** Page numbers below the first mean the first, those past the end the last. */
  function PageNumber(requested: int, total: nat, size: nat): (page: nat)
    requires size > 0
    ensures 1 <= page <= PageCount(total, size)
  {
    if requested <= 0 then 1 else if requested > PageCount(total, size) then PageCount(total, size) else requested
  }

  function Offset(pages: nat, size: nat): nat {
    pages * size
  }

  function Page<T>(list: seq<T>, requested: int, size: nat): seq<T>
    requires size > 0
  {
    var start := Offset(PageNumber(requested, |list|, size) - 1, size);
    var end := if start + size > |list| then |list| else start + size;
    if start < |list| then list[start..end] else []
  }

  function Pages<T>(list: seq<T>, size: nat, n: nat): seq<T>
    requires size > 0
  {
    if n == 0 then [] else Pages(list, size, n - 1) + Page(list, n, size)
  }

  lemma OffsetNext(n: nat, size: nat)
    ensures Offset(n + 1, size) == Offset(n, size) + size
  {
  }

  lemma OffsetOrder(m: nat, n: nat, size: nat)
    requires m <= n
    ensures Offset(m, size) <= Offset(n, size)
  {
  }

  /** Pages start within the list and together reach its end. */
  lemma PageBounds(total: nat, size: nat, n: nat)
    requires size > 0 && n < PageCount(total, size)
    ensures Offset(n, size) <= total <= Offset(PageCount(total, size), size)
  {
    var q := (total + size - 1) / size;
    assert Offset(q, size) <= total + size - 1 < Offset(q, size) + size;
    if q > 0 {
      OffsetNext(q - 1, size);
      OffsetOrder(n, q - 1, size);
    }
  }

  lemma NoOffset(size: nat)
    ensures Offset(0, size) == 0
  {
  }

  lemma PageSlice<T>(list: seq<T>, size: nat, n: nat)
    requires size > 0 && 0 < n <= PageCount(|list|, size) && Offset(n - 1, size) <= |list|
    ensures var a := Offset(n - 1, size); Page(list, n, size) == list[a..if a + size > |list| then |list| else a + size]
  {
    hide Offset, PageCount;
  }

  lemma {:induction false} PagesPrefix<T>(list: seq<T>, size: nat, n: nat)
    requires size > 0 && n <= PageCount(|list|, size)
    ensures Pages(list, size, n) == list[..if Offset(n, size) > |list| then |list| else Offset(n, size)]
  {
    hide Offset, PageCount, Page;
    if n == 0 {
      NoOffset(size);
    } else {
      PagesPrefix(list, size, n - 1);
      OffsetNext(n - 1, size);
      PageBounds(|list|, size, n - 1);
      PageSlice(list, size, n);
    }
  }

  /** Reading every page in turn reads the whole filtered list. */
  lemma PagesCover<T>(list: seq<T>, requested: int)
    ensures var size := PageSize(requested); Pages(list, size, PageCount(|list|, size)) == list
  {
    var size := PageSize(requested);
    hide Offset, PageCount, Pages;
    PagesPrefix(list, size, PageCount(|list|, size));
    PageBounds(|list|, size, 0);
  }

  /** A page holds at most the page size, 100 when none is asked for, and numbers outside the range mean the nearest page. */
  lemma PageExact<T>(list: seq<T>, requested: int, size: int)
    ensures var n := PageSize(size);
            && n == (if size <= 0 then 100 else size)
            && |Page(list, requested, n)| <= n
            && (requested <= 1 ==> Page(list, requested, n) == list[..if n < |list| then n else |list|])
            && (requested >= PageCount(|list|, n) ==> Page(list, requested, n) == Page(list, PageCount(|list|, n), n))
  {
    var n := PageSize(size);
    NoOffset(n);
    PageBounds(|list|, n, PageNumber(requested, |list|, n) - 1);
    hide Offset;
  }
}
