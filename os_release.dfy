/** The `/etc/os-release` reader, `os_release()` (src/infiniband_ops_manager.py:13-19).
    Reading the file is I/O: its text is the parameter `data`. The reader implements only
    what the code does: trim the text, split it into lines, drop empty lines, split every
    line on `=`, and strip double quotes from both ends of the value. Comments, escapes and
    shell quoting of the os-release(5) format are not interpreted. */
module OsRelease {
  import opened Text

  /** The `ValueError` raised when unpacking `k, v = fields` meets a line whose fields are
      not exactly two; `fields` are that line's fields. */
  datatype ParseError = Unpack(fields: seq<string>)

  datatype ParseResult = Parsed(entries: map<string, string>) | Malformed(error: ParseError)

  /** Python `[x for x in items if x != ""]`. */
  function NonEmpty(items: seq<string>): (r: seq<string>)
    ensures forall i :: 0 <= i < |r| ==> r[i] != "" && r[i] in items
    ensures forall i :: 0 <= i < |items| && items[i] != "" ==> items[i] in r
  {
    if items == [] then []
    else
      var rest := NonEmpty(items[1..]);
      assert forall i :: 1 <= i < |items| ==> items[i] == items[1..][i - 1];
      if items[0] == "" then rest else [items[0]] + rest
  }

  /** Filtering distributes over concatenation, so it keeps the order of the kept items. */
  lemma {:induction false} NonEmptyAppend(a: seq<string>, b: seq<string>)
    ensures NonEmpty(a + b) == NonEmpty(a) + NonEmpty(b)
  {
    if a == [] {
      assert a + b == b;
    } else {
      assert (a + b)[1..] == a[1..] + b;
      NonEmptyAppend(a[1..], b);
    }
  }

  /** Filtering one more item appends it exactly when it is not empty. */
  lemma NonEmptySnoc(a: seq<string>, x: string)
    ensures NonEmpty(a + [x]) == NonEmpty(a) + (if x == "" then [] else [x])
  {
    NonEmptyAppend(a, [x]);
  }

  /** The lines the reader looks at: the non-empty pieces of the trimmed text split on
      "\n". */
  function Lines(data: string): (lines: seq<string>)
    ensures forall i :: 0 <= i < |lines| ==> lines[i] != "" && '\n' !in lines[i]
  {
    var pieces := Split(Trim(data), '\n');
    NonEmpty(pieces)
  }

  /** The list comprehension: every line split on `=` (Python `line.split("=")`). */
  function Rows(data: string): (rows: seq<seq<string>>)
    ensures |rows| == |Lines(data)|
    ensures forall i :: 0 <= i < |rows| ==> rows[i] == Split(Lines(data)[i], '=')
  {
    var lines := Lines(data);
    seq(|lines|, i requires 0 <= i < |lines| => Split(lines[i], '='))
  }

  /** The value of a two-field row with its surrounding double quotes stripped
      (Python `v.strip('"')`). */
  function Unquote(v: string): string
  {
    Strip(v, {'"'})
  }

  /** The dictionary comprehension: rows are unpacked one by one, so a later row with the
      same key replaces an earlier one, and the first row that does not unpack into two
      fields raises. */
  function Collect(rows: seq<seq<string>>, acc: map<string, string>): ParseResult
  {
    if rows == [] then Parsed(acc)
    else if |rows[0]| != 2 then Malformed(Unpack(rows[0]))
    else Collect(rows[1..], acc[rows[0][0] := Unquote(rows[0][1])])
  }

  /** `os_release()` on the text `data` of the file. */
  function Parse(data: string): ParseResult
  {
    Collect(Rows(data), map[])
  }

  /** The key of a row: its first field. */
  function Key(row: seq<string>): string
  {
    if row == [] then "" else row[0]
  }

  /** No row after position `i` has the key of row `i`. */
  predicate LastWithKey(rows: seq<seq<string>>, i: nat)
    requires i < |rows|
  {
    forall j :: i < j < |rows| ==> Key(rows[j]) != Key(rows[i])
  }

  predicate HasKey(rows: seq<seq<string>>, k: string)
  {
    exists i :: 0 <= i < |rows| && Key(rows[i]) == k
  }

  /** The position of the first row that does not have two fields, or the number of rows
      when every row has two. */
  function FirstMalformed(rows: seq<seq<string>>): (n: nat)
    ensures n <= |rows|
    ensures forall j :: 0 <= j < n ==> |rows[j]| == 2
    ensures n < |rows| ==> |rows[n]| != 2
  {
    if rows == [] || |rows[0]| != 2 then 0
    else
      var n := FirstMalformed(rows[1..]);
      assert forall j :: 1 <= j < n + 1 ==> rows[j] == rows[1..][j - 1];
      1 + n
  }

  /** Collecting fails exactly when some row does not have two fields, and the failure
      carries the first such row. */
  lemma {:induction false} CollectOutcome(rows: seq<seq<string>>, acc: map<string, string>)
    ensures Collect(rows, acc).Malformed? <==> FirstMalformed(rows) < |rows|
    ensures Collect(rows, acc).Malformed? ==> Collect(rows, acc).error.fields == rows[FirstMalformed(rows)]
  {
    if rows != [] && |rows[0]| == 2 {
      CollectOutcome(rows[1..], acc[rows[0][0] := Unquote(rows[0][1])]);
    }
  }

  /** The keys of a successful collection are those of the accumulator and of the rows. */
  lemma {:induction false} CollectKeys(rows: seq<seq<string>>, acc: map<string, string>, m: map<string, string>)
    requires Collect(rows, acc) == Parsed(m)
    ensures forall k :: k in m <==> k in acc || HasKey(rows, k)
  {
    if rows != [] {
      var row, rest := rows[0], rows[1..];
      CollectKeys(rest, acc[row[0] := Unquote(row[1])], m);
      forall k ensures k in m <==> k in acc || HasKey(rows, k) {
        if HasKey(rest, k) {
          var i :| 0 <= i < |rest| && Key(rest[i]) == k;
          assert Key(rows[i + 1]) == k;
        }
        if HasKey(rows, k) && k != Key(row) {
          var i :| 0 <= i < |rows| && Key(rows[i]) == k;
          assert Key(rest[i - 1]) == Key(rows[i]);
        }
      }
    }
  }

  /** A key no row mentions keeps the accumulator's value. */
  lemma {:induction false} CollectKeeps(rows: seq<seq<string>>, acc: map<string, string>, m: map<string, string>, k: string)
    requires Collect(rows, acc) == Parsed(m)
    requires k in acc && !HasKey(rows, k)
    ensures k in m && m[k] == acc[k]
  {
    if rows != [] {
      var row, rest := rows[0], rows[1..];
      assert Key(rows[0]) != k;
      assert !HasKey(rest, k) by {
        forall j | 0 <= j < |rest| ensures Key(rest[j]) != k {
          assert rest[j] == rows[j + 1];
        }
      }
      CollectKeeps(rest, acc[row[0] := Unquote(row[1])], m, k);
    }
  }

  /** The last row with a given key decides its value. */
  lemma {:induction false} CollectLastWins(rows: seq<seq<string>>, acc: map<string, string>, m: map<string, string>, i: nat)
    requires Collect(rows, acc) == Parsed(m)
    requires i < |rows| && LastWithKey(rows, i)
    ensures |rows[i]| == 2 && Key(rows[i]) in m && m[Key(rows[i])] == Unquote(rows[i][1])
  {
    var row, rest := rows[0], rows[1..];
    var acc' := acc[row[0] := Unquote(row[1])];
    if i == 0 {
      NoLaterKey(rows);
      CollectKeeps(rest, acc', m, Key(row));
    } else {
      LastWithKeyShift(rows, i);
      CollectLastWins(rest, acc', m, i - 1);
    }
  }

  lemma NoLaterKey(rows: seq<seq<string>>)
    requires 0 < |rows| && LastWithKey(rows, 0)
    ensures !HasKey(rows[1..], Key(rows[0]))
  {
    forall j | 0 <= j < |rows| - 1 ensures Key(rows[1..][j]) != Key(rows[0]) {
      assert rows[1..][j] == rows[j + 1];
    }
  }

  lemma LastWithKeyShift(rows: seq<seq<string>>, i: nat)
    requires 0 < i < |rows| && LastWithKey(rows, i)
    ensures rows[i] == rows[1..][i - 1] && LastWithKey(rows[1..], i - 1)
  {
    var rest := rows[1..];
    forall j | i - 1 < j < |rest| ensures Key(rest[j]) != Key(rest[i - 1]) {
      assert rest[j] == rows[j + 1];
    }
  }

  /** `os_release()` raises exactly when some line it looks at does not contain exactly
      one `=`; the error carries the fields of the first such line. */
  lemma ParseFailsIff(data: string)
    ensures var lines, n := Lines(data), FirstMalformed(Rows(data));
            && n <= |lines|
            && (forall j :: 0 <= j < n ==> Count(lines[j], '=') == 1)
            && (Parse(data).Malformed? <==> n < |lines|)
            && (n < |lines| ==> Count(lines[n], '=') != 1 && Parse(data).error.fields == Split(lines[n], '='))
  {
    CollectOutcome(Rows(data), map[]);
  }

  /** A collection from the empty dictionary: one key per distinct row key, each with the
      unquoted value of the last row that has it. */
  lemma CollectFromEmpty(rows: seq<seq<string>>, m: map<string, string>)
    requires Collect(rows, map[]) == Parsed(m)
    ensures forall k :: k in m <==> HasKey(rows, k)
    ensures forall i :: 0 <= i < |rows| && LastWithKey(rows, i) ==>
              |rows[i]| == 2 && Key(rows[i]) in m && m[Key(rows[i])] == Unquote(rows[i][1])
  {
    CollectKeys(rows, map[], m);
    forall i | 0 <= i < |rows| && LastWithKey(rows, i)
      ensures |rows[i]| == 2 && Key(rows[i]) in m && m[Key(rows[i])] == Unquote(rows[i][1])
    {
      CollectLastWins(rows, map[], m, i);
    }
  }

  /** On success the dictionary has one key per distinct line key, and the value of a key
      comes from the last line with that key, with surrounding double quotes stripped. */
  lemma ParseEntries(data: string, m: map<string, string>)
    requires Parse(data) == Parsed(m)
    ensures var rows := Rows(data);
            && (forall k :: k in m <==> HasKey(rows, k))
            && (forall i :: 0 <= i < |rows| && LastWithKey(rows, i) ==>
                  |rows[i]| == 2 && Key(rows[i]) in m && m[Key(rows[i])] == Unquote(rows[i][1]))
  {
    CollectFromEmpty(Rows(data), m);
  }
}
