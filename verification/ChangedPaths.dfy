/** Parsing the list of changed paths that Git prints with NUL terminators. */
module ChangedPaths {
  import opened Wrappers

  const MAXIMUM_CHANGED_PATHS: nat := 50

  datatype ChangeStatus = Added | Deleted | Modified | TypeChanged

  datatype ChangedPath = ChangedPath(status: ChangeStatus, path: string)

  /** One printed change: a status and a path, each ended by a NUL byte. */
  datatype Entry = Entry(status: seq<byte>, path: seq<byte>)

  predicate IsEntry(entry: Entry) {
    entry.status != [] && 0 !in entry.status && 0 !in entry.path
  }

  predicate AreEntries(entries: seq<Entry>) {
    forall entry <- entries :: IsEntry(entry)
  }

  function PrintOne(entry: Entry, rest: seq<byte>): seq<byte> {
    entry.status + ([0] + (entry.path + ([0] + rest)))
  }

  /** The entries, printed before what follows them. */
  function Print(entries: seq<Entry>, rest: seq<byte>): seq<byte> {
    if entries == [] then rest else PrintOne(entries[0], Print(entries[1..], rest))
  }

  ghost predicate IsPrinted(output: seq<byte>) {
    exists entries :: AreEntries(entries) && output == Print(entries, [])
  }

  // ---- What an entry says -----------------------------------------------

  function StatusOf(status: seq<byte>): Option<ChangeStatus> {
    if status == [65] then Some(Added)
    else if status == [68] then Some(Deleted)
    else if status == [77] then Some(Modified)
    else if status == [84] then Some(TypeChanged)
    else None
  }

  predicate IsControl(c: char) { c as int < 0x20 || 0x7f <= c as int <= 0x9f }

  predicate UnsafeText(value: string) { value == [] || exists c <- value :: IsControl(c) }

  /** The change an entry reports, if its status is known and its path is safe text. */
  function ChangeOf(entry: Entry, decode: seq<byte> -> Option<string>): Option<ChangedPath> {
    match (StatusOf(entry.status), decode(entry.path))
    case (Some(status), Some(path)) => if UnsafeText(path) then None else Some(ChangedPath(status, path))
    case _ => None
  }

  predicate AreReportable(entries: seq<Entry>, decode: seq<byte> -> Option<string>) {
    |entries| <= MAXIMUM_CHANGED_PATHS && forall entry <- entries :: ChangeOf(entry, decode).Some?
  }

  /** All changes in order, or none of them. */
  function Report(entries: seq<Entry>, decode: seq<byte> -> Option<string>): Option<seq<ChangedPath>> {
    if AreReportable(entries, decode)
    then Some(seq(|entries|, i requires 0 <= i < |entries| => ChangeOf(entries[i], decode).value))
    else None
  }

  // ---- The printed form is unique ---------------------------------------

  lemma FieldIsUnique(f: seq<byte>, restF: seq<byte>, g: seq<byte>, restG: seq<byte>)
    requires 0 !in f && 0 !in g && f + ([0] + restF) == g + ([0] + restG)
    ensures f == g && restF == restG
  {
    var all := f + ([0] + restF);
    assert all[|f|] == 0 && all[|g|] == 0;
    assert forall i | 0 <= i < |f| :: all[i] == f[i] && all[i] != 0;
    assert forall i | 0 <= i < |g| :: all[i] == g[i] && all[i] != 0;
    assert f == all[..|f|] && g == all[..|g|];
    assert restF == all[|f| + 1..] && restG == all[|g| + 1..];
  }

  lemma ContainsZero(field: seq<byte>, rest: seq<byte>)
    ensures 0 in field + ([0] + rest)
  {
    assert (field + ([0] + rest))[|field|] == 0;
  }

  lemma EntryIsUnique(a: Entry, restA: seq<byte>, b: Entry, restB: seq<byte>)
    requires IsEntry(a) && IsEntry(b) && PrintOne(a, restA) == PrintOne(b, restB)
    ensures a == b && restA == restB
  {
    FieldIsUnique(a.status, a.path + ([0] + restA), b.status, b.path + ([0] + restB));
    FieldIsUnique(a.path, restA, b.path, restB);
  }

  lemma {:induction false} PrintAppend(entries: seq<Entry>, last: Entry, rest: seq<byte>)
    ensures Print(entries + [last], rest) == Print(entries, PrintOne(last, rest))
  {
    if entries == [] {
      assert [last][1..] == [];
    } else {
      assert (entries + [last])[1..] == entries[1..] + [last];
      PrintAppend(entries[1..], last, rest);
    }
  }

  /** Entries found at the front of printed entries are the first of them. */
  lemma {:induction false} FoundAgree(found: seq<Entry>, rest: seq<byte>, all: seq<Entry>)
    requires AreEntries(found) && AreEntries(all) && Print(found, rest) == Print(all, [])
    ensures |found| <= |all| && found == all[..|found|] && rest == Print(all[|found|..], [])
  {
    if found == [] {
      assert all[0..] == all;
    } else {
      EntryIsUnique(found[0], Print(found[1..], rest), all[0], Print(all[1..], []));
      FoundAgree(found[1..], rest, all[1..]);
      assert all[1..][|found| - 1..] == all[|found|..];
      assert found == [all[0]] + all[1..][..|found| - 1];
    }
  }

  lemma PrintIsInjective(a: seq<Entry>, b: seq<Entry>)
    requires AreEntries(a) && AreEntries(b) && Print(a, []) == Print(b, [])
    ensures a == b
  {
    FoundAgree(a, [], b);
    FoundAgree(b, [], a);
  }

  // ---- Fields -----------------------------------------------------------

  /** The pieces of a text between its NUL bytes, one more than there are NUL bytes. */
  class Fields {
    var rest: Option<seq<byte>>

    constructor (output: seq<byte>)
      ensures rest == Some(output)
    {
      rest := Some(output);
    }

    method Next() returns (field: Option<seq<byte>>)
      modifies this
      ensures field.Some? <==> old(rest).Some?
      ensures old(rest) == None ==> rest == None
      ensures field.Some? ==> 0 !in field.value
      ensures field.Some? && rest.Some? ==> old(rest).value == field.value + ([0] + rest.value)
      ensures field.Some? && rest == None ==> old(rest).value == field.value
    {
      if rest == None {
        return None;
      }
      var text := rest.value;
      var end := 0;
      while end < |text| && text[end] != 0
        invariant end <= |text|
        invariant 0 !in text[..end]
      {
        assert text[..end + 1] == text[..end] + [text[end]];
        end := end + 1;
      }
      field := Some(text[..end]);
      if end < |text| {
        rest := Some(text[end + 1..]);
        assert text == text[..end] + ([0] + text[end + 1..]);
      } else {
        rest := None;
      }
    }
  }

  // ---- The parser -------------------------------------------------------

  /** Text that doesn't continue as printed entries would, makes the whole unprinted. */
  lemma NotPrinted(output: seq<byte>, found: seq<Entry>, rest: seq<byte>, status: seq<byte>, path: seq<byte>)
    requires AreEntries(found) && output == Print(found, rest)
    requires 0 !in status && 0 !in path
    requires
      || (status == [] && rest != [] && rest[0] == 0)
      || (status != [] && (rest == status || rest == status + ([0] + path)))
    ensures !IsPrinted(output)
  {
    forall all: seq<Entry> | AreEntries(all) && output == Print(all, [])
      ensures false
    {
      FoundAgree(found, rest, all);
      var next := all[|found|..];
      if next != [] {
        assert next[0] in all;
        var tail := Print(next[1..], []);
        ContainsZero(next[0].status, next[0].path + ([0] + tail));
        ContainsZero(next[0].path, tail);
        if status != [] && rest != status {
          FieldIsUnique(next[0].status, next[0].path + ([0] + tail), status, path);
        }
      }
    }
  }

  lemma ReportStep(entries: seq<Entry>, last: Entry, decode: seq<byte> -> Option<string>)
    ensures Report(entries + [last], decode) ==
      match (Report(entries, decode), ChangeOf(last, decode))
      case (Some(changes), Some(change)) =>
        if |entries| < MAXIMUM_CHANGED_PATHS then Some(changes + [change]) else None
      case _ => None
  {
    var all := entries + [last];
    assert all[|entries|] == last;
    assert forall entry :: entry in all <==> entry in entries || entry == last;
    if AreReportable(all, decode) {
      assert AreReportable(entries, decode);
      assert Report(all, decode).value == Report(entries, decode).value + [ChangeOf(last, decode).value];
    }
  }

  /** The paths once one more entry was counted. */
  method Collect(paths: Option<seq<ChangedPath>>, count: nat, entry: Entry, decode: seq<byte> -> Option<string>,
                 ghost entries: seq<Entry>)
    returns (longer: Option<seq<ChangedPath>>)
    requires paths == Report(entries, decode) && count == |entries| + 1
    ensures longer == Report(entries + [entry], decode)
  {
    ReportStep(entries, entry, decode);
    if count > MAXIMUM_CHANGED_PATHS || paths == None {
      return None;
    }
    var status := StatusOf(entry.status);
    if status == None {
      return None;
    }
    var path := decode(entry.path);
    if path == None || UnsafeText(path.value) {
      return None;
    }
    return Some(paths.value + [ChangedPath(status.value, path.value)]);
  }

  /** Accepts exactly printed entries. The count is always right, and the paths are complete
      and in order or absent. */
  method ParseChangedPaths(output: seq<byte>, decode: seq<byte> -> Option<string>)
    returns (r: Option<(nat, Option<seq<ChangedPath>>)>)
    ensures r.Some? <==> IsPrinted(output)
    ensures forall entries | AreEntries(entries) && output == Print(entries, []) ::
      r == Some((|entries|, Report(entries, decode)))
  {
    var fields := new Fields(output);
    var count: nat := 0;
    var paths: Option<seq<ChangedPath>> := Some([]);
    ghost var entries: seq<Entry> := [];
    assert Report(entries, decode).Some? && Report(entries, decode).value == [];
    while true
      invariant AreEntries(entries) && count == |entries| && paths == Report(entries, decode)
      invariant if fields.rest.Some? then output == Print(entries, fields.rest.value) else !IsPrinted(output)
      decreases if fields.rest.Some? then |fields.rest.value| + 1 else 0
    {
      ghost var rest := fields.rest;
      var status := fields.Next();
      if status == None {
        return None;
      }
      if status.value == [] {
        var extra := fields.Next();
        if extra == None {
          forall others | AreEntries(others) && output == Print(others, [])
            ensures others == entries
          {
            PrintIsInjective(others, entries);
          }
          return Some((count, paths));
        }
        NotPrinted(output, entries, rest.value, [], []);
        return None;
      }
      var path := fields.Next();
      if path == None {
        NotPrinted(output, entries, rest.value, status.value, []);
        return None;
      }
      var entry := Entry(status.value, path.value);
      count := count + 1;
      paths := Collect(paths, count, entry, decode, entries);
      if fields.rest == None {
        NotPrinted(output, entries, rest.value, status.value, path.value);
      } else {
        assert rest.value == PrintOne(entry, fields.rest.value);
        PrintAppend(entries, entry, fields.rest.value);
      }
      entries := entries + [entry];
    }
  }

  // ---- What a report says -----------------------------------------------

  /** The letter that Git prints for a status. */
  predicate IsLetterOf(status: ChangeStatus, letter: seq<byte>) {
    match status
    case Added => letter == ['A' as byte]
    case Deleted => letter == ['D' as byte]
    case Modified => letter == ['M' as byte]
    case TypeChanged => letter == ['T' as byte]
  }

  /** A path that decodes to text which is neither empty nor has a control character in it. */
  predicate IsSafe(path: string) {
    |path| > 0 && forall i | 0 <= i < |path| :: 0x20 <= path[i] as int <= 0x7e || 0xa0 <= path[i] as int
  }

  /** A report lists every entry: its status by the printed letter, and its path. */
  predicate Reports(entries: seq<Entry>, decode: seq<byte> -> Option<string>, changes: seq<ChangedPath>) {
    && |changes| == |entries|
    && forall i | 0 <= i < |entries| ::
         && IsLetterOf(changes[i].status, entries[i].status)
         && decode(entries[i].path) == Some(changes[i].path) && IsSafe(changes[i].path)
  }

  lemma SafeMeans(path: string)
    ensures IsSafe(path) <==> !UnsafeText(path)
  {
    if IsSafe(path) {
      assert forall c <- path :: !IsControl(c);
    } else if path != [] {
      var i :| 0 <= i < |path| && !(0x20 <= path[i] as int <= 0x7e || 0xa0 <= path[i] as int);
      assert path[i] in path && IsControl(path[i]);
    }
  }

  /** There is a report exactly if there are at most 50 entries and all of them can be reported,
      and then it is that list. */
  lemma ReportMeans(entries: seq<Entry>, decode: seq<byte> -> Option<string>)
    ensures Report(entries, decode).Some? ==> |entries| <= 50 && Reports(entries, decode, Report(entries, decode).value)
    ensures forall changes: seq<ChangedPath> | |entries| <= 50 && Reports(entries, decode, changes) ::
      Report(entries, decode) == Some(changes)
  {
    if Report(entries, decode).Some? {
      var changes := Report(entries, decode).value;
      forall i | 0 <= i < |entries|
        ensures IsLetterOf(changes[i].status, entries[i].status)
        ensures decode(entries[i].path) == Some(changes[i].path) && IsSafe(changes[i].path)
      {
        assert entries[i] in entries;
        SafeMeans(changes[i].path);
      }
    }
    forall changes: seq<ChangedPath> | |entries| <= 50 && Reports(entries, decode, changes)
      ensures Report(entries, decode) == Some(changes)
    {
      forall i | 0 <= i < |entries|
        ensures ChangeOf(entries[i], decode) == Some(changes[i])
      {
        SafeMeans(changes[i].path);
      }
      assert Report(entries, decode).value == changes;
    }
  }

  /** Two entries, byte for byte. */
  lemma PrintedEntries()
    ensures Print([Entry([77], [97, 98]), Entry([65], [99])], []) == [77, 0, 97, 98, 0, 65, 0, 99, 0]
  {
    var entries := [Entry([77], [97, 98]), Entry([65], [99])];
    assert Print(entries[1..][1..], []) == [];
    assert Print(entries[1..], []) == [65, 0, 99, 0];
  }
}
