/** The dashboard client's logic: parsing the tag text of the mini form, the payload the
    mini form sends, the progress summaries of squads and armies, and the stage-toggle
    protocol with its optimistic update, pending set and rollback. */
module Dashboard {
  import opened Wrappers
  import opened Text
  import opened Types
  import opened Progress
  import opened Validation

  // ---------------------------------------------------------------------------
  // Tag text

  /** `toTagArray`: split the text on commas, trim each piece and drop the blank ones;
      `null` when nothing is left. */
  function ToTagArray(tagsText: string): (r: Option<seq<string>>)
    ensures r.Some? ==> |r.value| > 0
    ensures r.Some? ==> forall i :: 0 <= i < |r.value| ==>
      r.value[i] != [] && Trimmed(r.value[i]) && ',' !in r.value[i]
  {
    var pieces := Split(tagsText, ',');
    var tags := CleanItems(pieces);
    CleanItemsNoSeparator(pieces, ',');
    if |tags| > 0 then Some(tags) else None
  }

  lemma {:induction false} CleanItemsNoSeparator(xs: seq<string>, c: char)
    requires forall i :: 0 <= i < |xs| ==> c !in xs[i]
    ensures forall i :: 0 <= i < |CleanItems(xs)| ==> c !in CleanItems(xs)[i]
    decreases |xs|
  {
    if xs != [] {
      CleanItemsNoSeparator(xs[1..], c);
      TrimAvoids(xs[0], c);
    }
  }

  /** A piece of tag text is blank exactly when it holds only commas and whitespace. */
  predicate OnlyCommasAndBlanks(s: string) {
    forall k :: 0 <= k < |s| ==> s[k] == ',' || IsWhitespace(s[k])
  }

  /** Every item of the list is blank once trimmed. */
  predicate AllBlank(xs: seq<string>) {
    forall i :: 0 <= i < |xs| ==> Trim(xs[i]) == []
  }

  lemma AllBlankCons(x: string, xs: seq<string>)
    ensures AllBlank([x] + xs) <==> Trim(x) == [] && AllBlank(xs)
  {
    var ys := [x] + xs;
    assert ys[0] == x;
    assert forall i :: 0 <= i < |xs| ==> ys[i + 1] == xs[i];
    assert forall i :: 1 <= i < |ys| ==> ys[i] == xs[i - 1];
  }

  lemma TrimConsEmpty(c: char, p: string)
    ensures Trim([c] + p) == [] <==> IsWhitespace(c) && Trim(p) == []
  {
    var w := [c] + p;
    TrimEmptyIff(w);
    TrimEmptyIff(p);
    if Trim(w) == [] {
      forall k | 0 <= k < |p| ensures IsWhitespace(p[k]) {
        assert p[k] == w[k + 1];
      }
    }
    if IsWhitespace(c) && Trim(p) == [] {
      forall k | 0 <= k < |w| ensures IsWhitespace(w[k]) {
        if k > 0 {
          assert w[k] == p[k - 1];
        }
      }
    }
  }

  lemma OnlyCommasAndBlanksCons(s: string)
    requires s != []
    ensures OnlyCommasAndBlanks(s) <==> (s[0] == ',' || IsWhitespace(s[0])) && OnlyCommasAndBlanks(s[1..])
  {
    assert forall k :: 1 <= k < |s| ==> s[k] == s[1..][k - 1];
  }

  /** Every piece of `Split(s, ',')` is blank exactly when `s` has only commas and whitespace. */
  lemma {:induction false} SplitBlankIff(s: string)
    ensures AllBlank(Split(s, ',')) <==> OnlyCommasAndBlanks(s)
    decreases |s|
  {
    if s != [] {
      SplitBlankIff(s[1..]);
      OnlyCommasAndBlanksCons(s);
      var rest := Split(s[1..], ',');
      if s[0] == ',' {
        assert Split(s, ',') == [""] + rest;
        AllBlankCons("", rest);
      } else {
        assert Split(s, ',') == [[s[0]] + rest[0]] + rest[1..];
        assert rest == [rest[0]] + rest[1..];
        AllBlankCons([s[0]] + rest[0], rest[1..]);
        AllBlankCons(rest[0], rest[1..]);
        TrimConsEmpty(s[0], rest[0]);
      }
    }
  }

  /** `toTagArray` gives `null` exactly when the text holds nothing but commas and whitespace. */
  lemma ToTagArrayNoneIff(s: string)
    ensures ToTagArray(s).None? <==> OnlyCommasAndBlanks(s)
  {
    ToTagArrayNoneIffBlank(s);
    SplitBlankIff(s);
  }

  lemma ToTagArrayNoneIffBlank(s: string)
    ensures ToTagArray(s).None? <==> AllBlank(Split(s, ','))
  {
    ToTagArrayNoneIffCleaned(s);
    CleanedBlankIff(Split(s, ','));
  }

  lemma ToTagArrayNoneIffCleaned(s: string)
    ensures ToTagArray(s).None? <==> CleanItems(Split(s, ',')) == []
  {
    var tags := CleanItems(Split(s, ','));
    assert ToTagArray(s) == (if |tags| > 0 then Some(tags) else None);
  }

  lemma CleanedBlankIff(xs: seq<string>)
    ensures CleanItems(xs) == [] <==> AllBlank(xs)
  {
    CleanItemsEmptyIff(xs);
  }

  /** Splitting at one separator splits the two sides independently. */
  lemma {:induction false} SplitAppend(a: string, b: string, sep: char)
    ensures Split(a + [sep] + b, sep) == Split(a, sep) + Split(b, sep)
    decreases |a|
  {
    var w := a + [sep] + b;
    if a == [] {
      assert w == [sep] + b && w[1..] == b;
    } else {
      assert w[0] == a[0] && w[1..] == a[1..] + [sep] + b;
      SplitAppend(a[1..], b, sep);
    }
  }

  /** The tags of a text, with `null` read as no tags. */
  lemma ToTagArrayOrEmpty(s: string)
    ensures ToTagArray(s).GetOr([]) == CleanItems(Split(s, ','))
  {
    var tags := CleanItems(Split(s, ','));
    if |tags| == 0 {
      assert ToTagArray(s) == None && tags == [];
    } else {
      assert ToTagArray(s) == Some(tags);
    }
  }

  /** Tags from text joined by a comma are the tags of each side, in order: `toTagArray`
      keeps the input order of the tags. */
  lemma ToTagArrayAppend(a: string, b: string)
    ensures ToTagArray(a + "," + b).GetOr([]) == ToTagArray(a).GetOr([]) + ToTagArray(b).GetOr([])
  {
    var sa, sb := Split(a, ','), Split(b, ',');
    assert a + "," + b == a + [','] + b;
    SplitAppend(a, b, ',');
    CleanItemsAppend(sa, sb);
    ToTagArrayOrEmpty(a);
    ToTagArrayOrEmpty(b);
    ToTagArrayOrEmpty(a + "," + b);
  }

  /** The tag text the edit form is opened with: `(mini.tags ?? []).join(", ")`. With no
      tags it is empty; otherwise, when no tag holds a comma, its comma-separated pieces
      are the tags, every one after the first with a leading space. */
  function EditFormTagsText(tags: Option<seq<string>>): (r: string)
    ensures tags.None? ==> r == ""
    ensures tags.Some? && |tags.value| > 0 && (forall i :: 0 <= i < |tags.value| ==> ',' !in tags.value[i]) ==>
      Split(r, ',') == [tags.value[0]] + WithSpace(tags.value[1..])
  {
    var r := Join(tags.GetOr([]), ", ");
    if tags.Some? && |tags.value| > 0 && (forall i :: 0 <= i < |tags.value| ==> ',' !in tags.value[i]) then
      SplitCommaSpace(tags.value);
      r
    else
      r
  }

  function WithSpace(xs: seq<string>): (r: seq<string>)
    ensures |r| == |xs| && forall i :: 0 <= i < |xs| ==> r[i] == " " + xs[i]
  {
    seq(|xs|, i requires 0 <= i < |xs| => " " + xs[i])
  }

  lemma {:induction false} JoinCommaSpace(xs: seq<string>)
    requires |xs| >= 1
    ensures Join(xs, ", ") == Join([xs[0]] + WithSpace(xs[1..]), ",")
    decreases |xs|
  {
    if |xs| >= 2 {
      JoinCommaSpace(xs[1..]);
      var ys := xs[1..];
      var rest := WithSpace(ys[1..]);
      assert WithSpace(ys) == [" " + ys[0]] + rest;
      assert ([xs[0]] + WithSpace(ys))[1..] == WithSpace(ys);
      if |ys| == 1 {
        assert rest == [];
      } else {
        assert ([ys[0]] + rest)[1..] == rest;
        assert ([" " + ys[0]] + rest)[1..] == rest;
      }
    }
  }

  lemma {:induction false} CleanItemsSpaced(xs: seq<string>)
    requires forall i :: 0 <= i < |xs| ==> xs[i] != [] && Trimmed(xs[i])
    ensures CleanItems(WithSpace(xs)) == xs
    decreases |xs|
  {
    if xs != [] {
      var w := WithSpace(xs);
      assert w[1..] == WithSpace(xs[1..]);
      TrimLeadingWhitespace(" ", xs[0]);
      TrimOfTrimmed(xs[0]);
      CleanItemsSpaced(xs[1..]);
    }
  }

  /** Splitting a `", "`-join of comma-free items at commas gives the first item and the
      others each with its leading space. */
  lemma SplitCommaSpace(xs: seq<string>)
    requires |xs| > 0
    requires forall i :: 0 <= i < |xs| ==> ',' !in xs[i]
    ensures Split(Join(xs, ", "), ',') == [xs[0]] + WithSpace(xs[1..])
  {
    var spaced := [xs[0]] + WithSpace(xs[1..]);
    JoinCommaSpace(xs);
    forall i | 0 <= i < |spaced| ensures ',' !in spaced[i] {
      if i > 0 {
        assert spaced[i] == " " + xs[i];
      }
    }
    SplitJoin(spaced, ',');
    assert [','] == ",";
  }

  /** Cleaning those pieces drops the leading spaces again. */
  lemma CleanCommaSpace(xs: seq<string>)
    requires |xs| > 0
    requires forall i :: 0 <= i < |xs| ==> xs[i] != [] && Trimmed(xs[i])
    ensures CleanItems([xs[0]] + WithSpace(xs[1..])) == xs
  {
    CleanItemsAppend([xs[0]], WithSpace(xs[1..]));
    CleanItemsSingle(xs[0]);
    TrimOfTrimmed(xs[0]);
    CleanItemsSpaced(xs[1..]);
    assert [xs[0]] + xs[1..] == xs;
  }

  /** Opening the edit form and saving it unchanged sends the mini's tags back as they were,
      provided no tag contains a comma (a tag with a comma comes back split in two). */
  lemma EditFormTagsRoundTrip(tags: Option<seq<string>>)
    requires tags.Some? ==> |tags.value| > 0
    requires tags.Some? ==> forall i :: 0 <= i < |tags.value| ==>
      tags.value[i] != [] && Trimmed(tags.value[i]) && ',' !in tags.value[i]
    ensures ToTagArray(EditFormTagsText(tags)) == tags
  {
    if tags.Some? {
      var xs := tags.value;
      SplitCommaSpace(xs);
      CleanCommaSpace(xs);
    } else {
      assert Split("", ',') == [""];
      CleanItemsSingle("");
    }
  }

  // ---------------------------------------------------------------------------
  // Mini form payload

  datatype MiniForm = MiniForm(name: string, squadId: string, description: string, tagsText: string)

  /** The body the mini form sends: the name and squad as typed, the description as typed
      unless it is blank (then `null`), and the tags parsed from the tag text. */
  function MiniPayload(form: MiniForm): (body: MiniBody)
    ensures body.name == Given(form.name) && body.squadId == Given(form.squadId)
    ensures body.description.Null? <==> forall k :: 0 <= k < |form.description| ==> IsWhitespace(form.description[k])
    ensures body.tags.Null? <==> OnlyCommasAndBlanks(form.tagsText)
    ensures !body.description.Null? ==> body.description == Given(form.description)
    ensures !body.tags.Null? ==> ToTagArray(form.tagsText).Some? && body.tags == Given(ToTagArray(form.tagsText).value)
  {
    TrimEmptyIff(form.description);
    ToTagArrayNoneIff(form.tagsText);
    MiniBody(
      Given(form.name),
      Given(form.squadId),
      if |Trim(form.description)| > 0 then Given(form.description) else Null,
      TagsField(ToTagArray(form.tagsText)))
  }

  /** The tags as sent in a body: the list, or `null`. */
  function TagsField(tags: Option<seq<string>>): Field<seq<string>> {
    match tags
    case Some(ts) => Given(ts)
    case None => Null
  }

  /** The server accepts a mini form's payload (create or update alike) exactly when the
      trimmed name has 1 to 120 characters, the squad is a UUID, the trimmed description has
      at most 3000 characters and the parsed tags are at most 30, each at most 60 long. */
  lemma MiniPayloadAccepted(form: MiniForm, mode: Mode)
    ensures ParseMiniBody(MiniPayload(form), mode).Some? <==>
      1 <= |Trim(form.name)| <= MaxNameLength && IsUuid(form.squadId) &&
      |Trim(form.description)| <= MaxDescriptionLength &&
      (ToTagArray(form.tagsText).Some? ==>
         |ToTagArray(form.tagsText).value| <= MaxTags &&
         forall i :: 0 <= i < |ToTagArray(form.tagsText).value| ==>
           |ToTagArray(form.tagsText).value[i]| <= MaxTagLength)
  {
    var body := MiniPayload(form);
    assert ParseName(body.name).Ok? <==> 1 <= |Trim(form.name)| <= MaxNameLength;
    assert ParseParentId(body.squadId, mode).Some? <==> IsUuid(form.squadId);
    assert ParseDescription(body.description).Some? <==> |Trim(form.description)| <= MaxDescriptionLength;
    PayloadTagsAccepted(ToTagArray(form.tagsText));
  }

  lemma PayloadTagsAccepted(tags: Option<seq<string>>)
    requires tags.Some? ==> forall i :: 0 <= i < |tags.value| ==> tags.value[i] != [] && Trimmed(tags.value[i])
    ensures ParseTags(TagsField(tags)).Some? <==>
      (tags.Some? ==> |tags.value| <= MaxTags && forall i :: 0 <= i < |tags.value| ==> |tags.value[i]| <= MaxTagLength)
  {
    if tags.Some? {
      CleanTagsWithinLimits(tags.value);
    }
  }

  /** For tags that are already clean, the limits are on the tags as they are. */
  lemma CleanTagsWithinLimits(ts: seq<string>)
    requires forall i :: 0 <= i < |ts| ==> ts[i] != [] && Trimmed(ts[i])
    ensures TagsWithinLimits(ts) <==> |ts| <= MaxTags && forall i :: 0 <= i < |ts| ==> |ts[i]| <= MaxTagLength
  {
    forall i | 0 <= i < |ts| ensures Trim(ts[i]) == ts[i] {
      TrimOfTrimmed(ts[i]);
    }
  }

  /** What the server stores for an accepted mini form: the trimmed description, or `null`
      when it is blank; and exactly the tags `toTagArray` parsed from the tag text. */
  lemma MiniPayloadStored(form: MiniForm, mode: Mode)
    requires ParseMiniBody(MiniPayload(form), mode).Some?
    ensures var input := ParseMiniBody(MiniPayload(form), mode).value;
      NormalizeNullableText(input.description) ==
        (if Trim(form.description) == [] then None else Some(Trim(form.description))) &&
      NormalizeNullableTags(input.tags) == ToTagArray(form.tagsText)
  {
    var body := MiniPayload(form);
    var input := ParseMiniBody(body, mode).value;
    assert input.description == ParseDescription(body.description).value;
    assert input.tags == ParseTags(body.tags).value;
    StoredDescription(form);
    StoredTags(form.tagsText);
  }

  lemma StoredDescription(form: MiniForm)
    requires ParseDescription(MiniPayload(form).description).Some?
    ensures NormalizeNullableText(ParseDescription(MiniPayload(form).description).value) ==
      (if Trim(form.description) == [] then None else Some(Trim(form.description)))
  {
    TrimIdempotent(form.description);
  }

  lemma StoredTags(text: string)
    requires ParseTags(TagsField(ToTagArray(text))).Some?
    ensures NormalizeNullableTags(ParseTags(TagsField(ToTagArray(text))).value) == ToTagArray(text)
  {
    var tags := ToTagArray(text);
    if tags.Some? {
      var ts := tags.value;
      forall i | 0 <= i < |ts| ensures Trim(ts[i]) == ts[i] {
        TrimOfTrimmed(ts[i]);
      }
      assert TrimEach(ts) == ts;
      CleanItemsOfClean(ts);
    }
  }

  // ---------------------------------------------------------------------------
  // Progress summaries

  /** A ratio `num / den`. */
  datatype Ratio = Ratio(num: nat, den: nat)

  /** `{ total, done, progress }` of a squad, an army or the whole dashboard. */
  datatype Stats = Stats(total: nat, done: nat, progress: Ratio)

  /** `minis.reduce((sum, mini) => sum + getMiniProgress(mini), sum)`, in fifths. */
  function SumProgress(minis: seq<Mini>, sum: nat): (r: nat)
    ensures sum <= r <= sum + |StageKeys| * |minis|
    decreases |minis|
  {
    if minis == [] then sum else SumProgress(minis[1..], sum + MiniProgress(minis[0]))
  }

  /** The total progress of a list of minis, in fifths. */
  function ProgressSum(minis: seq<Mini>): (r: nat)
    ensures r <= |StageKeys| * |minis|
  {
    SumProgress(minis, 0)
  }

  lemma {:induction false} SumProgressShift(minis: seq<Mini>, sum: nat)
    ensures SumProgress(minis, sum) == sum + ProgressSum(minis)
    decreases |minis|
  {
    if minis != [] {
      SumProgressShift(minis[1..], sum + MiniProgress(minis[0]));
      SumProgressShift(minis[1..], MiniProgress(minis[0]));
    }
  }

  lemma {:induction false} ProgressSumAppend(a: seq<Mini>, b: seq<Mini>)
    ensures ProgressSum(a + b) == ProgressSum(a) + ProgressSum(b)
    decreases |a|
  {
    if a == [] {
      assert a + b == b;
    } else {
      assert (a + b)[1..] == a[1..] + b;
      SumProgressShift(a[1..] + b, MiniProgress(a[0]));
      SumProgressShift(a[1..], MiniProgress(a[0]));
      ProgressSumAppend(a[1..], b);
    }
  }

  /** The summary of a list of minis: their number, how many are done, and the mean of
      their progress (0 for no minis). */
  function StatsOf(minis: seq<Mini>): (st: Stats)
    ensures st.total == |minis| && st.done == DoneCount(minis) && st.done <= st.total
    ensures 0 < st.progress.den && st.progress.num <= st.progress.den
    ensures st.total == 0 ==> st.progress.num == 0
    ensures st.total > 0 ==> st.progress == Ratio(ProgressSum(minis), |StageKeys| * st.total)
  {
    var total := |minis|;
    Stats(total, DoneCount(minis),
          if total == 0 then Ratio(0, 1) else Ratio(ProgressSum(minis), |StageKeys| * total))
  }

  /** `getSquadStats`: a squad shows all its minis done exactly when each one is, and
      none done exactly when no one is. */
  function SquadStats(squad: Squad): (st: Stats)
    ensures st.total == |squad.minis| && st.done == DoneCount(squad.minis)
    ensures st.total == 0 ==> st.progress.num == 0
    ensures st.total > 0 ==> st.progress == Ratio(ProgressSum(squad.minis), |StageKeys| * st.total)
    ensures st.done == st.total <==> forall i :: 0 <= i < |squad.minis| ==> IsDone(squad.minis[i])
    ensures st.done == 0 <==> forall i :: 0 <= i < |squad.minis| ==> !IsDone(squad.minis[i])
  {
    DoneCountExtremes(squad.minis);
    StatsOf(squad.minis)
  }

  /** `getArmyStats`, over the minis of all the army's squads: it agrees with
      `getSquadStats` on those squads, the total and done count being the sums of theirs and
      the progress their summed progress over five times the total. */
  function ArmyStats(army: Army): (st: Stats)
    ensures st.total == SquadTotals(army.squads)
    ensures st.done == SquadDones(army.squads)
    ensures st.total == 0 ==> st.progress.num == 0
    ensures st.total > 0 ==>
      st.progress == Ratio(SquadProgressSums(army.squads), |StageKeys| * SquadTotals(army.squads))
  {
    ArmyStatsFromSquads(army.squads);
    StatsOf(SquadMinis(army.squads))
  }

  /** The summary of the whole dashboard (`overallDone`, `overallTotal`, `overallProgress`):
      it agrees with `getArmyStats` on the armies, the total and done count being the sums
      of theirs and the progress their summed progress over five times the total. */
  function OverallStats(t: Tree): (st: Stats)
    ensures st.total == ArmyTotals(t.armies)
    ensures st.done == ArmyDones(t.armies)
    ensures st.total == 0 ==> st.progress.num == 0
    ensures st.total > 0 ==>
      st.progress == Ratio(ArmyProgressSums(t.armies), |StageKeys| * ArmyTotals(t.armies))
  {
    OverallStatsFromArmies(t.armies);
    StatsOf(AllMinis(t))
  }

  /** The progress sum is full exactly when every mini is done. */
  lemma {:induction false} ProgressSumFull(minis: seq<Mini>)
    ensures ProgressSum(minis) == |StageKeys| * |minis| <==> forall i :: 0 <= i < |minis| ==> IsDone(minis[i])
    decreases |minis|
  {
    if minis != [] {
      ProgressSumFull(minis[1..]);
      SumProgressShift(minis[1..], MiniProgress(minis[0]));
      assert forall i :: 1 <= i < |minis| ==> minis[i] == minis[1..][i - 1];
    }
  }

  /** The progress sum is zero exactly when no mini has any stage complete. */
  lemma {:induction false} ProgressSumZero(minis: seq<Mini>)
    ensures ProgressSum(minis) == 0 <==> forall i :: 0 <= i < |minis| ==> MiniProgress(minis[i]) == 0
    decreases |minis|
  {
    if minis != [] {
      ProgressSumZero(minis[1..]);
      SumProgressShift(minis[1..], MiniProgress(minis[0]));
      assert forall i :: 1 <= i < |minis| ==> minis[i] == minis[1..][i - 1];
    }
  }

  /** The mean progress is full exactly when every mini is done, and zero exactly when no
      mini has any stage complete. */
  lemma StatsExtremes(minis: seq<Mini>)
    ensures |minis| > 0 ==>
      (StatsOf(minis).progress.num == StatsOf(minis).progress.den <==> StatsOf(minis).done == |minis|)
    ensures StatsOf(minis).progress.num == 0 <==> forall i :: 0 <= i < |minis| ==> MiniProgress(minis[i]) == 0
  {
    DoneCountExtremes(minis);
    ProgressSumFull(minis);
    ProgressSumZero(minis);
  }

  function SquadTotals(squads: seq<Squad>): nat
    decreases |squads|
  {
    if squads == [] then 0 else SquadTotals(squads[..|squads| - 1]) + SquadStats(squads[|squads| - 1]).total
  }

  function SquadDones(squads: seq<Squad>): nat
    decreases |squads|
  {
    if squads == [] then 0 else SquadDones(squads[..|squads| - 1]) + SquadStats(squads[|squads| - 1]).done
  }

  function SquadProgressSums(squads: seq<Squad>): nat
    decreases |squads|
  {
    if squads == [] then 0 else SquadProgressSums(squads[..|squads| - 1]) + ProgressSum(squads[|squads| - 1].minis)
  }

  /** An army's summary is made of its squads' summaries: the total is the sum of the
      squads' mini counts, the done count the sum of theirs, and the progress numerator the
      sum of theirs (over five times the total). */
  lemma {:induction false} ArmyStatsFromSquads(squads: seq<Squad>)
    ensures |SquadMinis(squads)| == SquadTotals(squads)
    ensures DoneCount(SquadMinis(squads)) == SquadDones(squads)
    ensures ProgressSum(SquadMinis(squads)) == SquadProgressSums(squads)
    decreases |squads|
  {
    if squads != [] {
      var init := squads[..|squads| - 1];
      var last := squads[|squads| - 1];
      ArmyStatsFromSquads(init);
      DoneCountAppend(SquadMinis(init), last.minis);
      ProgressSumAppend(SquadMinis(init), last.minis);
    }
  }

  function ArmyTotals(armies: seq<Army>): nat
    decreases |armies|
  {
    if armies == [] then 0 else ArmyTotals(armies[..|armies| - 1]) + ArmyStats(armies[|armies| - 1]).total
  }

  function ArmyDones(armies: seq<Army>): nat
    decreases |armies|
  {
    if armies == [] then 0 else ArmyDones(armies[..|armies| - 1]) + ArmyStats(armies[|armies| - 1]).done
  }

  function ArmyProgressSums(armies: seq<Army>): nat
    decreases |armies|
  {
    if armies == [] then 0
    else ArmyProgressSums(armies[..|armies| - 1]) + ProgressSum(SquadMinis(armies[|armies| - 1].squads))
  }

  /** The dashboard's summary is made of its armies' summaries, as an army's is of its
      squads'. */
  lemma {:induction false} OverallStatsFromArmies(armies: seq<Army>)
    ensures |ArmyMinis(armies)| == ArmyTotals(armies)
    ensures DoneCount(ArmyMinis(armies)) == ArmyDones(armies)
    ensures ProgressSum(ArmyMinis(armies)) == ArmyProgressSums(armies)
    decreases |armies|
  {
    if armies != [] {
      var init := armies[..|armies| - 1];
      var last := armies[|armies| - 1];
      OverallStatsFromArmies(init);
      DoneCountAppend(ArmyMinis(init), SquadMinis(last.squads));
      ProgressSumAppend(ArmyMinis(init), SquadMinis(last.squads));
    }
  }

  // ---------------------------------------------------------------------------
  // Optimistic stage update

  /** The mini with one stage set to `value` and its timestamp set to `now` (when turning the
      stage on) or cleared (when turning it off); nothing else of the mini changes. */
  function WithStage(m: Mini, s: Stage, value: bool, now: string): (r: Mini)
    ensures Flag(r, s) == value && Stamp(r, s) == (if value then Some(now) else None)
    ensures forall t: Stage :: t != s ==> Flag(r, t) == Flag(m, t) && Stamp(r, t) == Stamp(m, t)
    ensures r.id == m.id && r.squadId == m.squadId && r.name == m.name
    ensures r.description == m.description && r.tags == m.tags
    ensures r.createdAt == m.createdAt && r.updatedAt == m.updatedAt
  {
    var stamp := if value then Some(now) else None;
    match s
    case Assembled => m.(assembled := value, assembledAt := stamp)
    case Primed => m.(primed := value, primedAt := stamp)
    case Painted => m.(painted := value, paintedAt := stamp)
    case Based => m.(based := value, basedAt := stamp)
    case Photographed => m.(photographed := value, photographedAt := stamp)
  }

  /** The toggle keeps "flag set iff timestamp set" for the toggled stage, and so for the
      whole mini when it held before. */
  lemma WithStagePaired(m: Mini, s: Stage, value: bool, now: string)
    ensures (Flag(WithStage(m, s, value, now), s) <==> Stamp(WithStage(m, s, value, now), s).Some?)
    ensures StampsPaired(m) ==> StampsPaired(WithStage(m, s, value, now))
  {
  }

  /** The toggle moves the mini's progress by one step at most: the old flag's count is
      replaced by the new one's. */
  lemma WithStageProgress(m: Mini, s: Stage, value: bool, now: string)
    ensures MiniProgress(WithStage(m, s, value, now)) + Indicator(Flag(m, s))
         == MiniProgress(m) + Indicator(value)
  {
    var r := WithStage(m, s, value, now);
    var k, k0 := MiniProgress(r), MiniProgress(m);
    match s
    case Assembled =>
      assert r.primed == m.primed && r.painted == m.painted && r.based == m.based && r.photographed == m.photographed;
    case Primed =>
      assert r.assembled == m.assembled && r.painted == m.painted && r.based == m.based && r.photographed == m.photographed;
    case Painted =>
      assert r.assembled == m.assembled && r.primed == m.primed && r.based == m.based && r.photographed == m.photographed;
    case Based =>
      assert r.assembled == m.assembled && r.primed == m.primed && r.painted == m.painted && r.photographed == m.photographed;
    case Photographed =>
      assert r.assembled == m.assembled && r.primed == m.primed && r.painted == m.painted && r.based == m.based;
  }

  /** The mini at army `a`, squad `q`, position `i`. */
  predicate ValidPath(t: Tree, a: int, q: int, i: int) {
    0 <= a < |t.armies| && 0 <= q < |t.armies[a].squads| && 0 <= i < |t.armies[a].squads[q].minis|
  }

  function MiniAt(t: Tree, a: int, q: int, i: int): Mini
    requires ValidPath(t, a, q, i)
  {
    t.armies[a].squads[q].minis[i]
  }

  /** Two squads that differ at most in their minis, and have equally many. */
  predicate SameSquadShape(x: Squad, y: Squad) {
    x.(minis := y.minis) == y && |x.minis| == |y.minis|
  }

  /** Two armies that differ at most in their squads' minis. */
  predicate SameArmyShape(x: Army, y: Army) {
    x.(squads := y.squads) == y && |x.squads| == |y.squads| &&
    forall q :: 0 <= q < |x.squads| ==> SameSquadShape(x.squads[q], y.squads[q])
  }

  /** Two trees with the same armies and squads in the same places, differing at most in
      the contents of their minis. */
  predicate SameShape(t: Tree, u: Tree) {
    |t.armies| == |u.armies| &&
    forall a :: 0 <= a < |t.armies| ==> SameArmyShape(t.armies[a], u.armies[a])
  }

  /** Every mini of the tree keeps "flag set iff timestamp set". */
  ghost predicate TreePaired(t: Tree) {
    forall a, q, i :: ValidPath(t, a, q, i) ==> StampsPaired(MiniAt(t, a, q, i))
  }

  function ToggleInMinis(minis: seq<Mini>, miniId: string, s: Stage, value: bool, now: string): (r: seq<Mini>)
    ensures |r| == |minis|
    ensures forall i :: 0 <= i < |minis| ==>
      r[i] == if minis[i].id == miniId then WithStage(minis[i], s, value, now) else minis[i]
  {
    seq(|minis|, i requires 0 <= i < |minis| =>
      if minis[i].id == miniId then WithStage(minis[i], s, value, now) else minis[i])
  }

  function ToggleInSquads(squads: seq<Squad>, miniId: string, s: Stage, value: bool, now: string): (r: seq<Squad>)
    ensures |r| == |squads|
    ensures forall q :: 0 <= q < |squads| ==>
      r[q] == squads[q].(minis := ToggleInMinis(squads[q].minis, miniId, s, value, now))
  {
    seq(|squads|, q requires 0 <= q < |squads| =>
      squads[q].(minis := ToggleInMinis(squads[q].minis, miniId, s, value, now)))
  }

  /** The optimistic update of `toggleStage`: every mini whose id matches gets the stage
      set; every other mini, every squad and every army is left as it is. */
  function ApplyToggle(t: Tree, miniId: string, s: Stage, value: bool, now: string): (u: Tree)
    ensures SameShape(t, u)
    ensures forall a, q, i :: ValidPath(t, a, q, i) ==>
      MiniAt(u, a, q, i) == if MiniAt(t, a, q, i).id == miniId
                            then WithStage(MiniAt(t, a, q, i), s, value, now)
                            else MiniAt(t, a, q, i)
  {
    Tree(seq(|t.armies|, a requires 0 <= a < |t.armies| =>
      t.armies[a].(squads := ToggleInSquads(t.armies[a].squads, miniId, s, value, now))))
  }

  /** A tree in which no mini has the id is left unchanged by the toggle. */
  lemma ApplyToggleAbsent(t: Tree, miniId: string, s: Stage, value: bool, now: string)
    requires forall a, q, i :: ValidPath(t, a, q, i) ==> MiniAt(t, a, q, i).id != miniId
    ensures ApplyToggle(t, miniId, s, value, now) == t
  {
    var u := ApplyToggle(t, miniId, s, value, now);
    forall a | 0 <= a < |t.armies| ensures u.armies[a] == t.armies[a] {
      var squads := t.armies[a].squads;
      forall q | 0 <= q < |squads| ensures u.armies[a].squads[q] == squads[q] {
        var minis := squads[q].minis;
        assert forall i :: 0 <= i < |minis| ==> ValidPath(t, a, q, i) && minis[i] == MiniAt(t, a, q, i);
        assert ToggleInMinis(minis, miniId, s, value, now) == minis;
      }
      assert ToggleInSquads(squads, miniId, s, value, now) == squads;
    }
  }

  /** The optimistic update keeps "flag set iff timestamp set" across the whole tree. */
  lemma ApplyTogglePaired(t: Tree, miniId: string, s: Stage, value: bool, now: string)
    requires TreePaired(t)
    ensures TreePaired(ApplyToggle(t, miniId, s, value, now))
  {
    var u := ApplyToggle(t, miniId, s, value, now);
    forall a, q, i | ValidPath(u, a, q, i) ensures StampsPaired(MiniAt(u, a, q, i)) {
      assert ValidPath(t, a, q, i);
      WithStagePaired(MiniAt(t, a, q, i), s, value, now);
    }
  }

  // ---------------------------------------------------------------------------
  // The stage-toggle protocol

  /** A pending toggle: which mini and which stage. */
  datatype ToggleKey = ToggleKey(miniId: string, stage: Stage)

  /** The string the client uses as the key of a pending toggle, `${miniId}:${stage}`. */
  function ToggleKeyString(k: ToggleKey): (r: string)
    ensures |r| == |k.miniId| + 1 + |StageName(k.stage)|
    ensures r[..|k.miniId|] == k.miniId && r[|k.miniId|] == ':'
    ensures r[|k.miniId| + 1..] == StageName(k.stage) && ':' !in r[|k.miniId| + 1..]
  {
    assert forall s: Stage :: ':' !in StageName(s);
    k.miniId + ":" + StageName(k.stage)
  }

  /** Different pending toggles never share a key string, so a set of pairs models the
      client's record of pending keys exactly. */
  lemma ToggleKeyStringInjective(k1: ToggleKey, k2: ToggleKey)
    requires ToggleKeyString(k1) == ToggleKeyString(k2)
    ensures k1 == k2
  {
    assert forall s: Stage :: ':' !in StageName(s);
    SeparatedSuffix(k1.miniId, StageName(k1.stage), k2.miniId, StageName(k2.stage));
  }

  /** A string `a:n` whose suffix `n` has no colon determines both `a` and `n`. */
  lemma SeparatedSuffix(a: string, n: string, b: string, m: string)
    requires a + ":" + n == b + ":" + m
    requires ':' !in n && ':' !in m
    ensures a == b && n == m
  {
    LongerSuffixHasColon(a, n, b, m);
    LongerSuffixHasColon(b, m, a, n);
    var w := a + ":" + n;
    assert n == w[|w| - |n|..] == m;
    assert a == w[..|a|] == b;
  }

  /** If `a:n` and `b:m` spell the same string and `m` is the longer suffix, the colon
      after `a` falls inside `m`. */
  lemma LongerSuffixHasColon(a: string, n: string, b: string, m: string)
    requires a + ":" + n == b + ":" + m
    ensures |n| < |m| ==> ':' in m
  {
    if |n| < |m| {
      var w := a + ":" + n;
      var p := |w| - |n| - 1;
      assert w[p] == ':';
      assert w[p] == (b + ":" + m)[p] == m[p - (|w| - |m|)];
    }
  }

  /** A toggle whose request is outstanding: its key, the value requested and the tree as
      it was before the optimistic update (`structuredClone(tree)`). */
  datatype InFlight = InFlight(key: ToggleKey, value: bool, snapshot: Tree)

  /** How the stage-update request ended: confirmed, or failed with the message of the
      thrown `Error` (`None` when what was thrown is not an `Error`). */
  datatype Outcome = Confirmed | Failed(thrown: Option<string>)

  /** The message shown when a stage update fails. */
  function FailureMessage(thrown: Option<string>): (msg: string)
    ensures thrown.Some? ==> msg == thrown.value
    ensures thrown.None? ==> msg == "Stage update failed"
  {
    thrown.GetOr("Stage update failed")
  }

  /** The dashboard's client state: the tree shown, the pending toggles and the error banner. */
  class DashboardState {
    var tree: Tree
    var pending: set<ToggleKey>
    var errorMessage: Option<string>

    constructor (initialTree: Tree)
      ensures tree == initialTree && pending == {} && errorMessage == None
    {
      tree := initialTree;
      pending := {};
      errorMessage := None;
    }

    /** The synchronous part of `toggleStage`, up to sending the request. If the same
        mini and stage is already pending it does nothing and sends nothing; otherwise it
        clears the error, marks the key pending, snapshots the tree and applies the
        optimistic update. */
    method BeginToggle(miniId: string, stage: Stage, value: bool, now: string)
      returns (request: Option<InFlight>)
      modifies this
      ensures ToggleKey(miniId, stage) in old(pending) ==>
        request == None && tree == old(tree) && pending == old(pending) &&
        errorMessage == old(errorMessage)
      ensures ToggleKey(miniId, stage) !in old(pending) ==>
        request == Some(InFlight(ToggleKey(miniId, stage), value, old(tree))) &&
        pending == old(pending) + {ToggleKey(miniId, stage)} &&
        tree == ApplyToggle(old(tree), miniId, stage, value, now) &&
        errorMessage == None
    {
      var key := ToggleKey(miniId, stage);
      if key in pending {
        return None;
      }
      errorMessage := None;
      pending := pending + {key};
      var snapshot := tree;
      tree := ApplyToggle(tree, miniId, stage, value, now);
      request := Some(InFlight(key, value, snapshot));
    }

    /** The part of `toggleStage` after the request ends. On success the optimistic tree
        stays and a refresh is requested; on failure the snapshot is restored and the error
        shown. Either way the key stops being pending and no other key changes. */
    method FinishToggle(request: InFlight, outcome: Outcome) returns (refresh: bool)
      modifies this
      ensures pending == old(pending) - {request.key}
      ensures outcome.Confirmed? ==>
        tree == old(tree) && errorMessage == old(errorMessage) && refresh
      ensures outcome.Failed? ==>
        tree == request.snapshot && errorMessage == Some(FailureMessage(outcome.thrown)) && !refresh
    {
      pending := pending - {request.key};
      match outcome
      case Confirmed =>
        refresh := true;
      case Failed(thrown) =>
        tree := request.snapshot;
        errorMessage := Some(FailureMessage(thrown));
        refresh := false;
    }

    /** `toggleStage` run to completion with no other toggle in between. */
    method ToggleStage(miniId: string, stage: Stage, value: bool, now: string, outcome: Outcome)
      returns (sent: bool, refresh: bool)
      modifies this
      ensures sent <==> ToggleKey(miniId, stage) !in old(pending)
      ensures pending == old(pending)
      ensures !sent ==> tree == old(tree) && errorMessage == old(errorMessage) && !refresh
      ensures sent && outcome.Confirmed? ==>
        tree == ApplyToggle(old(tree), miniId, stage, value, now) && errorMessage == None && refresh
      ensures sent && outcome.Failed? ==>
        tree == old(tree) && errorMessage == Some(FailureMessage(outcome.thrown)) && !refresh
      ensures TreePaired(old(tree)) ==> TreePaired(tree)
    {
      ghost var before := tree;
      var request := BeginToggle(miniId, stage, value, now);
      sent, refresh := request.Some?, false;
      if request.Some? {
        if TreePaired(before) {
          ApplyTogglePaired(before, miniId, stage, value, now);
        }
        refresh := FinishToggle(request.value, outcome);
      }
    }
  }
}
