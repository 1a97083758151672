/** The CSV export: every value quoted with inner quotes doubled, a fixed header of 21
    columns, then one row per mini, walking the tree army by army, squad by squad. */
module Export {
  import opened Wrappers
  import opened Text
  import opened Types
  import opened Progress

  // ---------------------------------------------------------------------------
  // Quoting

  /** `value.replaceAll('"', '""')`: every double quote doubled. */
  function EscapeQuotes(s: string): (r: string)
    ensures |r| == |s| + Count(s, '"')
    decreases |s|
  {
    if s == [] then []
    else (if s[0] == '"' then "\"\"" else [s[0]]) + EscapeQuotes(s[1..])
  }

  /** `csvEscape`: the value with its quotes doubled, between double quotes. */
  function CsvEscape(s: string): (r: string)
    ensures |r| == |s| + Count(s, '"') + 2
    ensures r[0] == '"' && r[|r| - 1] == '"'
    ensures r[1..|r| - 1] == EscapeQuotes(s)
  {
    "\"" + EscapeQuotes(s) + "\""
  }

  /** Reading a quoted field's inside back: each `""` stands for one `"`; a lone `"`
      cannot occur inside a quoted field. */
  function CollapseQuotes(s: string): Option<string>
    decreases |s|
  {
    if s == [] then Some([])
    else if s[0] != '"' then
      match CollapseQuotes(s[1..])
      case Some(rest) => Some([s[0]] + rest)
      case None => None
    else if |s| >= 2 && s[1] == '"' then
      match CollapseQuotes(s[2..])
      case Some(rest) => Some("\"" + rest)
      case None => None
    else None
  }

  /** Reading a quoted field back: strip the outer quotes and collapse the doubled ones. */
  function Unquote(field: string): Option<string> {
    if |field| >= 2 && field[0] == '"' && field[|field| - 1] == '"'
    then CollapseQuotes(field[1..|field| - 1])
    else None
  }

  /** Collapsing the doubled quotes undoes the doubling. */
  lemma {:induction false} CollapseEscape(s: string)
    ensures CollapseQuotes(EscapeQuotes(s)) == Some(s)
    decreases |s|
  {
    if s != [] {
      var e := EscapeQuotes(s);
      CollapseEscape(s[1..]);
      if s[0] == '"' {
        assert e[2..] == EscapeQuotes(s[1..]);
      } else {
        assert e[1..] == EscapeQuotes(s[1..]);
      }
      assert s == [s[0]] + s[1..];
    }
  }

  /** Every exported value reads back as itself. */
  lemma CsvEscapeRoundTrip(s: string)
    ensures Unquote(CsvEscape(s)) == Some(s)
  {
    CollapseEscape(s);
  }

  /** Quoting changes nothing but the quotes: the value's other characters are kept, so a
      value with no quote is merely wrapped. */
  lemma {:induction false} EscapeWithoutQuotes(s: string)
    requires '"' !in s
    ensures EscapeQuotes(s) == s
    decreases |s|
  {
    if s != [] {
      EscapeWithoutQuotes(s[1..]);
      assert s == [s[0]] + s[1..];
    }
  }

  /** Doubling quotes adds no other character: a character other than `"` occurs in the
      escaped value exactly when it occurs in the value. */
  lemma {:induction false} EscapeKeepsOtherChars(s: string, c: char)
    requires c != '"'
    ensures c in EscapeQuotes(s) <==> c in s
    decreases |s|
  {
    if s != [] {
      EscapeKeepsOtherChars(s[1..], c);
      var head := if s[0] == '"' then "\"\"" else [s[0]];
      assert EscapeQuotes(s) == head + EscapeQuotes(s[1..]);
      assert s == [s[0]] + s[1..];
    }
  }

  // ---------------------------------------------------------------------------
  // Scalar columns

  /** `String(b)` for a boolean. */
  function BoolString(b: bool): (r: string)
    ensures r == "true" <==> b
    ensures r == "false" <==> !b
  {
    if b then "true" else "false"
  }

  function DigitChar(d: nat): char
    requires d < 10
  {
    "0123456789"[d]
  }

  /** `String(n)` for a natural number: its decimal digits, with no leading zero. */
  function DecimalString(n: nat): (r: string)
    ensures 1 <= |r|
    ensures forall i :: 0 <= i < |r| ==> '0' <= r[i] <= '9'
    ensures |r| > 1 ==> r[0] != '0'
    decreases n
  {
    if n < 10 then [DigitChar(n)] else DecimalString(n / 10) + [DigitChar(n % 10)]
  }

  /** The number a string of decimal digits stands for. */
  function DecimalValue(s: string): nat
    decreases |s|
  {
    if s == [] then 0
    else
      var c := s[|s| - 1];
      var d := if '0' <= c <= '9' then c as int - '0' as int else 0;
      10 * DecimalValue(s[..|s| - 1]) + d
  }

  /** The decimal rendering reads back as the number it renders. */
  lemma {:induction false} DecimalRoundTrip(n: nat)
    ensures DecimalValue(DecimalString(n)) == n
    decreases n
  {
    var r := DecimalString(n);
    if n < 10 {
      assert r[..0] == [];
    } else {
      DecimalRoundTrip(n / 10);
      assert r[..|r| - 1] == DecimalString(n / 10);
    }
  }

  /** `String(toPercent(getMiniProgress(mini)))`. */
  function PercentColumn(m: Mini): string {
    DecimalString(ToPercent(MiniProgress(m), |StageKeys|))
  }

  /** The percent column is the decimal number 20 times the count of completed stages. */
  lemma PercentColumnValue(m: Mini)
    ensures PercentColumn(m) == DecimalString(20 * MiniProgress(m))
    ensures DecimalValue(PercentColumn(m)) == 20 * MiniProgress(m) <= 100
  {
    MiniPercent(m);
    DecimalRoundTrip(20 * MiniProgress(m));
  }

  // ---------------------------------------------------------------------------
  // Header and rows

  /** The column names of the export, in order. */
  const HeaderColumns: seq<string> := [
    "armyId", "armyName", "squadId", "squadName", "miniId", "miniName",
    "description", "tags",
    "assembled", "primed", "painted", "based", "photographed",
    "miniProgressPercent",
    "assembledAt", "primedAt", "paintedAt", "basedAt", "photographedAt",
    "miniCreatedAt", "miniUpdatedAt"]

  /** The first line of the export: the column names joined by commas, unquoted. */
  function HeaderLine(): string {
    Join(HeaderColumns, ",")
  }

  /** The header has 21 columns from `armyId` to `miniUpdatedAt`, the five stage columns
      in the fixed stage order. */
  lemma HeaderColumnsOrder()
    ensures |HeaderColumns| == 21
    ensures HeaderColumns[0] == "armyId" && HeaderColumns[20] == "miniUpdatedAt"
    ensures forall i :: 0 <= i < 5 ==> HeaderColumns[8 + i] == StageName(StageKeys[i])
  {
    assert StageKeys == [Assembled, Primed, Painted, Based, Photographed];
  }

  /** Splitting the header line at its commas gives the column names back. */
  lemma HeaderLineColumns()
    ensures Split(HeaderLine(), ',') == HeaderColumns
  {
    assert forall i :: 0 <= i < |HeaderColumns| ==> ',' !in HeaderColumns[i];
    SplitJoin(HeaderColumns, ',');
    assert [','] == ",";
  }

  /** A mini together with the squad and the army it is listed under. */
  datatype Entry = Entry(army: Army, squad: Squad, mini: Mini)

  /** The columns written as quoted text: all but the five stage flags and the percent. */
  predicate IsQuotedColumn(i: nat) {
    i < |HeaderColumns| && !(8 <= i < 14)
  }

  /** The value behind quoted column `i`, before quoting: identifiers and names, the
      description and the timestamps with `null` read as the empty string, and the tags
      joined with `|`. */
  function RawValue(e: Entry, i: nat): string
    requires IsQuotedColumn(i)
  {
    var m := e.mini;
    if i == 19 then m.createdAt
    else if i == 20 then m.updatedAt
    else if 14 <= i then Stamp(m, StageKeys[i - 14]).GetOr("")
    else
      match i
      case 0 => e.army.id
      case 1 => e.army.name
      case 2 => e.squad.id
      case 3 => e.squad.name
      case 4 => m.id
      case 5 => m.name
      case 6 => m.description.GetOr("")
      case _ => Join(m.tags.GetOr([]), "|")
  }

  /** Column `i` of a mini's row: the stage flags and the percent unquoted, everything
      else quoted. */
  function EntryField(e: Entry, i: nat): string
    requires i < |HeaderColumns|
  {
    if 8 <= i < 13 then BoolString(Flag(e.mini, StageKeys[i - 8]))
    else if i == 13 then PercentColumn(e.mini)
    else CsvEscape(RawValue(e, i))
  }

  /** The 21 fields of a mini's row, one per header column. */
  function EntryFields(e: Entry): (f: seq<string>)
    ensures |f| == |HeaderColumns| && forall i :: 0 <= i < |f| ==> f[i] == EntryField(e, i)
  {
    seq(|HeaderColumns|, i requires 0 <= i < |HeaderColumns| => EntryField(e, i))
  }

  /** A null value is written as the quoted empty string `""`; any other value reads back
      as itself. */
  lemma NullableColumn(v: Option<string>)
    ensures v.None? ==> CsvEscape(v.GetOr("")) == "\"\""
    ensures v.Some? ==> Unquote(CsvEscape(v.GetOr(""))) == v
  {
    assert EscapeQuotes("") == "";
    CsvEscapeRoundTrip(v.GetOr(""));
  }

  /** Every quoted column of a row reads back as the value behind it. */
  lemma EntryFieldsQuoted(e: Entry)
    ensures forall i: nat :: IsQuotedColumn(i) ==> Unquote(EntryFields(e)[i]) == Some(RawValue(e, i))
  {
    forall i: nat | IsQuotedColumn(i) ensures Unquote(EntryFields(e)[i]) == Some(RawValue(e, i)) {
      CsvEscapeRoundTrip(RawValue(e, i));
    }
  }

  /** The identifier, name and creation columns of a row read back as the army's, the
      squad's and the mini's own values. */
  lemma EntryFieldsNames(e: Entry)
    ensures Unquote(EntryFields(e)[0]) == Some(e.army.id) && Unquote(EntryFields(e)[1]) == Some(e.army.name)
    ensures Unquote(EntryFields(e)[2]) == Some(e.squad.id) && Unquote(EntryFields(e)[3]) == Some(e.squad.name)
    ensures Unquote(EntryFields(e)[4]) == Some(e.mini.id) && Unquote(EntryFields(e)[5]) == Some(e.mini.name)
    ensures Unquote(EntryFields(e)[19]) == Some(e.mini.createdAt)
    ensures Unquote(EntryFields(e)[20]) == Some(e.mini.updatedAt)
  {
    EntryFieldsQuoted(e);
    assert IsQuotedColumn(0) && IsQuotedColumn(1) && IsQuotedColumn(2) && IsQuotedColumn(3);
    assert IsQuotedColumn(4) && IsQuotedColumn(5) && IsQuotedColumn(19) && IsQuotedColumn(20);
  }

  /** The description column is `""` for a null description and reads back as the
      description otherwise. */
  lemma EntryFieldsDescription(e: Entry)
    ensures e.mini.description.None? ==> EntryFields(e)[6] == "\"\""
    ensures e.mini.description.Some? ==> Unquote(EntryFields(e)[6]) == e.mini.description
  {
    assert EntryFields(e)[6] == CsvEscape(e.mini.description.GetOr(""));
    NullableColumn(e.mini.description);
  }

  /** The tags column reads back as the tags joined with `|`, or as the empty string for
      null tags. */
  lemma EntryFieldsTags(e: Entry)
    ensures Unquote(EntryFields(e)[7]) == Some(Join(e.mini.tags.GetOr([]), "|"))
  {
    assert EntryFields(e)[7] == CsvEscape(Join(e.mini.tags.GetOr([]), "|"));
    CsvEscapeRoundTrip(Join(e.mini.tags.GetOr([]), "|"));
  }

  /** The five stage columns are the unquoted flags in stage order, and the percent column
      is the decimal number 20 times the count of completed stages. */
  lemma EntryFieldsStages(e: Entry)
    ensures forall i :: 0 <= i < 5 ==> EntryFields(e)[8 + i] == BoolString(Flag(e.mini, StageKeys[i]))
    ensures EntryFields(e)[13] == DecimalString(20 * MiniProgress(e.mini))
    ensures DecimalValue(EntryFields(e)[13]) == 20 * MiniProgress(e.mini) <= 100
  {
    PercentColumnValue(e.mini);
  }

  /** Each timestamp column is `""` when the stage has no timestamp and reads back as the
      timestamp otherwise. */
  lemma EntryFieldsStamps(e: Entry)
    ensures forall i :: 0 <= i < 5 ==>
      (Stamp(e.mini, StageKeys[i]).None? ==> EntryFields(e)[14 + i] == "\"\"") &&
      (Stamp(e.mini, StageKeys[i]).Some? ==> Unquote(EntryFields(e)[14 + i]) == Stamp(e.mini, StageKeys[i]))
  {
    forall i | 0 <= i < 5
      ensures Stamp(e.mini, StageKeys[i]).None? ==> EntryFields(e)[14 + i] == "\"\""
      ensures Stamp(e.mini, StageKeys[i]).Some? ==> Unquote(EntryFields(e)[14 + i]) == Stamp(e.mini, StageKeys[i])
    {
      assert EntryFields(e)[14 + i] == CsvEscape(Stamp(e.mini, StageKeys[i]).GetOr(""));
      NullableColumn(Stamp(e.mini, StageKeys[i]));
    }
  }

  /** The text of a mini's row. */
  function EntryLine(e: Entry): string {
    Join(EntryFields(e), ",")
  }

  /** The entries of the minis of one squad, in order. */
  function MiniEntries(a: Army, q: Squad, minis: seq<Mini>): (es: seq<Entry>)
    ensures |es| == |minis| && forall i :: 0 <= i < |minis| ==> es[i] == Entry(a, q, minis[i])
  {
    seq(|minis|, i requires 0 <= i < |minis| => Entry(a, q, minis[i]))
  }

  /** The entries of an army's squads, squad by squad. */
  function SquadEntries(a: Army, squads: seq<Squad>): seq<Entry>
    decreases |squads|
  {
    if squads == [] then []
    else
      var q := squads[|squads| - 1];
      SquadEntries(a, squads[..|squads| - 1]) + MiniEntries(a, q, q.minis)
  }

  /** The entries of a list of armies, army by army. */
  function ArmyEntries(armies: seq<Army>): seq<Entry>
    decreases |armies|
  {
    if armies == [] then []
    else
      var a := armies[|armies| - 1];
      ArmyEntries(armies[..|armies| - 1]) + SquadEntries(a, a.squads)
  }

  /** Every mini of the tree with its squad and army, in army, squad, mini order. */
  function Entries(t: Tree): seq<Entry> {
    ArmyEntries(t.armies)
  }

  /** The minis of a list of entries. */
  function EntryMinis(es: seq<Entry>): (ms: seq<Mini>)
    ensures |ms| == |es| && forall k :: 0 <= k < |es| ==> ms[k] == es[k].mini
  {
    seq(|es|, k requires 0 <= k < |es| => es[k].mini)
  }

  lemma EntryMinisAppend(x: seq<Entry>, y: seq<Entry>)
    ensures EntryMinis(x + y) == EntryMinis(x) + EntryMinis(y)
  {
  }

  lemma {:induction false} SquadEntriesMinis(a: Army, squads: seq<Squad>)
    ensures EntryMinis(SquadEntries(a, squads)) == SquadMinis(squads)
    ensures forall k :: 0 <= k < |SquadEntries(a, squads)| ==>
      SquadEntries(a, squads)[k].army == a && SquadEntries(a, squads)[k].squad in squads &&
      SquadEntries(a, squads)[k].mini in SquadEntries(a, squads)[k].squad.minis
    decreases |squads|
  {
    if squads != [] {
      var init := squads[..|squads| - 1];
      var q := squads[|squads| - 1];
      SquadEntriesMinis(a, init);
      EntryMinisAppend(SquadEntries(a, init), MiniEntries(a, q, q.minis));
      assert EntryMinis(MiniEntries(a, q, q.minis)) == q.minis;
      assert forall s :: s in init ==> s in squads;
    }
  }

  lemma {:induction false} ArmyEntriesMinis(armies: seq<Army>)
    ensures EntryMinis(ArmyEntries(armies)) == ArmyMinis(armies)
    ensures forall k :: 0 <= k < |ArmyEntries(armies)| ==>
      ArmyEntries(armies)[k].army in armies &&
      ArmyEntries(armies)[k].squad in ArmyEntries(armies)[k].army.squads &&
      ArmyEntries(armies)[k].mini in ArmyEntries(armies)[k].squad.minis
    decreases |armies|
  {
    if armies != [] {
      var init := armies[..|armies| - 1];
      var a := armies[|armies| - 1];
      ArmyEntriesMinis(init);
      SquadEntriesMinis(a, a.squads);
      EntryMinisAppend(ArmyEntries(init), SquadEntries(a, a.squads));
      assert forall x :: x in init ==> x in armies;
    }
  }

  /** There is exactly one entry per mini, in the order the tree lists the minis. */
  lemma EntriesFollowTree(t: Tree)
    ensures |Entries(t)| == |AllMinis(t)|
    ensures forall k :: 0 <= k < |Entries(t)| ==> Entries(t)[k].mini == AllMinis(t)[k]
  {
    ArmyEntriesMinis(t.armies);
  }

  /** Each entry names the squad holding the mini and the army holding that squad. */
  lemma EntriesNested(t: Tree)
    ensures forall k :: 0 <= k < |Entries(t)| ==>
      Entries(t)[k].army in t.armies && Entries(t)[k].squad in Entries(t)[k].army.squads &&
      Entries(t)[k].mini in Entries(t)[k].squad.minis
  {
    ArmyEntriesMinis(t.armies);
  }

  /** The lines of a list of entries. */
  function Lines(es: seq<Entry>): (ls: seq<string>)
    ensures |ls| == |es| && forall k :: 0 <= k < |es| ==> ls[k] == EntryLine(es[k])
  {
    MapSeq(EntryLine, es)
  }

  /** `xs.map(f)`. */
  function MapSeq<A, B>(f: A -> B, xs: seq<A>): (r: seq<B>)
    ensures |r| == |xs| && forall k :: 0 <= k < |xs| ==> r[k] == f(xs[k])
  {
    seq(|xs|, k requires 0 <= k < |xs| => f(xs[k]))
  }

  lemma MapSeqAppend<A, B>(f: A -> B, x: seq<A>, y: seq<A>)
    ensures MapSeq(f, x + y) == MapSeq(f, x) + MapSeq(f, y)
  {
  }

  lemma LinesAppend(x: seq<Entry>, y: seq<Entry>)
    ensures Lines(x + y) == Lines(x) + Lines(y)
  {
    MapSeqAppend(EntryLine, x, y);
  }

  /** Rows of entries whose values hold no line break are single lines. */
  lemma LinesSingle(es: seq<Entry>)
    requires forall k :: 0 <= k < |es| ==> SingleLine(es[k])
    ensures forall k :: 0 <= k < |Lines(es)| ==> '\n' !in Lines(es)[k]
  {
    forall k | 0 <= k < |es| ensures '\n' !in Lines(es)[k] {
      EntryLineSingle(es[k]);
    }
  }

  /** The rows of the CSV export: the header, then one line per entry. */
  function CsvLines(t: Tree): seq<string> {
    [HeaderLine()] + Lines(Entries(t))
  }

  /** The export has one line more than the tree has minis. */
  lemma CsvLinesCount(t: Tree)
    ensures |CsvLines(t)| == 1 + |AllMinis(t)|
  {
    EntriesFollowTree(t);
  }

  /** One more mini of a squad adds its line. */
  lemma MiniLinesStep(a: Army, q: Squad, i: nat)
    requires i < |q.minis|
    ensures Lines(MiniEntries(a, q, q.minis[..i + 1]))
         == Lines(MiniEntries(a, q, q.minis[..i])) + [EntryLine(Entry(a, q, q.minis[i]))]
  {
    assert MiniEntries(a, q, q.minis[..i + 1])
        == MiniEntries(a, q, q.minis[..i]) + [Entry(a, q, q.minis[i])];
    LinesAppend(MiniEntries(a, q, q.minis[..i]), [Entry(a, q, q.minis[i])]);
  }

  /** One more squad of an army adds the lines of its minis. */
  lemma SquadLinesStep(a: Army, i: nat)
    requires i < |a.squads|
    ensures Lines(SquadEntries(a, a.squads[..i + 1]))
         == Lines(SquadEntries(a, a.squads[..i])) + Lines(MiniEntries(a, a.squads[i], a.squads[i].minis))
  {
    assert a.squads[..i + 1][..i] == a.squads[..i];
    LinesAppend(SquadEntries(a, a.squads[..i]), MiniEntries(a, a.squads[i], a.squads[i].minis));
  }

  /** One more army adds the lines of its squads. */
  lemma ArmyLinesStep(armies: seq<Army>, i: nat)
    requires i < |armies|
    ensures Lines(ArmyEntries(armies[..i + 1]))
         == Lines(ArmyEntries(armies[..i])) + Lines(SquadEntries(armies[i], armies[i].squads))
  {
    assert armies[..i + 1][..i] == armies[..i];
    LinesAppend(ArmyEntries(armies[..i]), SquadEntries(armies[i], armies[i].squads));
  }

  /** The innermost `forEach`: push the line of each mini of one squad onto `rows`. */
  method PushSquadRows(rows: seq<string>, army: Army, squad: Squad) returns (out: seq<string>)
    ensures out == rows + Lines(MiniEntries(army, squad, squad.minis))
  {
    out := rows;
    var mi := 0;
    while mi < |squad.minis|
      invariant 0 <= mi <= |squad.minis|
      invariant out == rows + Lines(MiniEntries(army, squad, squad.minis[..mi]))
    {
      var line := EntryLine(Entry(army, squad, squad.minis[mi]));
      out := out + [line];
      MiniLinesStep(army, squad, mi);
      AppendAssoc(rows, Lines(MiniEntries(army, squad, squad.minis[..mi])), [line]);
      mi := mi + 1;
    }
    assert squad.minis[..mi] == squad.minis;
  }

  /** The middle `forEach`: push the lines of each squad of one army onto `rows`. */
  method PushArmyRows(rows: seq<string>, army: Army) returns (out: seq<string>)
    ensures out == rows + Lines(SquadEntries(army, army.squads))
  {
    out := rows;
    var qi := 0;
    while qi < |army.squads|
      invariant 0 <= qi <= |army.squads|
      invariant out == rows + Lines(SquadEntries(army, army.squads[..qi]))
    {
      var squad := army.squads[qi];
      ghost var before := Lines(SquadEntries(army, army.squads[..qi]));
      out := PushSquadRows(out, army, squad);
      SquadLinesStep(army, qi);
      AppendAssoc(rows, before, Lines(MiniEntries(army, squad, squad.minis)));
      qi := qi + 1;
    }
    assert army.squads[..qi] == army.squads;
  }

  /** The `rows` of the export handler: the header line, then the lines pushed by the
      outer `forEach` over the armies. */
  method CsvRows(t: Tree) returns (rows: seq<string>)
    ensures rows == CsvLines(t)
  {
    rows := [HeaderLine()];
    assert t.armies[..0] == [];
    assert rows == [HeaderLine()] + Lines(ArmyEntries([]));
    var ai := 0;
    while ai < |t.armies|
      invariant 0 <= ai <= |t.armies|
      invariant rows == [HeaderLine()] + Lines(ArmyEntries(t.armies[..ai]))
    {
      var army := t.armies[ai];
      ghost var before := Lines(ArmyEntries(t.armies[..ai]));
      rows := PushArmyRows(rows, army);
      ArmyLinesStep(t.armies, ai);
      AppendAssoc([HeaderLine()], before, Lines(SquadEntries(army, army.squads)));
      ai := ai + 1;
    }
    assert t.armies[..ai] == t.armies;
  }

  /** The body of the CSV response: the rows joined by line breaks. */
  function CsvDocument(t: Tree): string {
    Join(CsvLines(t), "\n")
  }

  /** No quoted value of the entry holds a line break. */
  ghost predicate SingleLine(e: Entry) {
    forall i: nat :: IsQuotedColumn(i) ==> '\n' !in RawValue(e, i)
  }

  /** The header line holds no line break. */
  lemma HeaderSingleLine()
    ensures '\n' !in HeaderLine()
  {
    assert forall i :: 0 <= i < |HeaderColumns| ==> '\n' !in HeaderColumns[i];
    JoinAvoids(HeaderColumns, ",", '\n');
  }

  /** A row whose values hold no line break is itself one line. */
  lemma EntryLineSingle(e: Entry)
    requires SingleLine(e)
    ensures '\n' !in EntryLine(e)
  {
    var f := EntryFields(e);
    forall i | 0 <= i < |f| ensures '\n' !in f[i] {
      if IsQuotedColumn(i) {
        EscapeKeepsOtherChars(RawValue(e, i), '\n');
        assert f[i] == "\"" + EscapeQuotes(RawValue(e, i)) + "\"";
      } else if i == 13 {
        assert f[i] == DecimalString(ToPercent(MiniProgress(e.mini), |StageKeys|));
      } else {
        assert f[i] == BoolString(Flag(e.mini, StageKeys[i - 8]));
      }
    }
    JoinAvoids(f, ",", '\n');
  }

  lemma ConsAvoids(h: string, ls: seq<string>, c: char)
    requires c !in h && forall k :: 0 <= k < |ls| ==> c !in ls[k]
    ensures forall k :: 0 <= k < |[h] + ls| ==> c !in ([h] + ls)[k]
  {
    forall k | 0 <= k < |[h] + ls| ensures c !in ([h] + ls)[k] {
      if k > 0 {
        assert ([h] + ls)[k] == ls[k - 1];
      }
    }
  }

  /** When no exported value holds a line break, no row does. */
  lemma CsvLinesSingle(t: Tree)
    requires forall k :: 0 <= k < |Entries(t)| ==> SingleLine(Entries(t)[k])
    ensures forall k :: 0 <= k < |CsvLines(t)| ==> '\n' !in CsvLines(t)[k]
  {
    HeaderSingleLine();
    LinesSingle(Entries(t));
    ConsAvoids(HeaderLine(), Lines(Entries(t)), '\n');
  }

  /** When no exported value holds a line break, the CSV body splits at its line breaks
      into exactly the header and one line per mini. */
  lemma CsvDocumentLines(t: Tree)
    requires forall k :: 0 <= k < |Entries(t)| ==> SingleLine(Entries(t)[k])
    ensures Split(CsvDocument(t), '\n') == CsvLines(t)
    ensures |Split(CsvDocument(t), '\n')| == 1 + |AllMinis(t)|
  {
    CsvLinesSingle(t);
    SplitJoin(CsvLines(t), '\n');
    assert ['\n'] == "\n";
    CsvLinesCount(t);
  }

  // ---------------------------------------------------------------------------
  // Format choice

  /** What the export handler responds with. */
  datatype ExportFormat = Csv | Json

  /** `url.searchParams.get("format") ?? "json"`, then CSV only for exactly `"csv"`. */
  function ChooseFormat(param: Option<string>): (f: ExportFormat)
    ensures f == Csv <==> param == Some("csv")
  {
    var format := param.GetOr("json");
    if format == "csv" then Csv else Json
  }
}
