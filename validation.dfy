/** Input validation of the request bodies and the server-side normalisers of the
    optional mini fields. Each schema is stated directly as the constraint it checks
    and the value it yields when the body is accepted. */
module Validation {
  import opened Wrappers
  import opened Text
  import opened Types

  /** One field of a decoded JSON body: missing, `null`, a value of the expected type,
      or a value of some other type. */
  datatype Field<+T> = Absent | Null | Given(value: T) | Mistyped

  /** Whether a schema is the create or the update variant. */
  datatype Mode = Create | Update

  const MaxNameLength: nat := 120
  const MaxDescriptionLength: nat := 3000
  const MaxTags: nat := 30
  const MaxTagLength: nat := 60

  /** Why a name was refused. */
  datatype NameIssue = NotAString | NameRequired | NameTooLong

  /** `trimmedName`: a string, trimmed, then 1 to 120 characters long. */
  function ParseName(f: Field<string>): (r: Result<string, NameIssue>)
    ensures r.Ok? <==> f.Given? && 1 <= |Trim(f.value)| <= MaxNameLength
    ensures r.Ok? ==> r.value == Trim(f.value)
    ensures r == Err(NameRequired) <==> f.Given? && Trim(f.value) == []
    ensures r == Err(NameTooLong) <==> f.Given? && |Trim(f.value)| > MaxNameLength
  {
    if !f.Given? then Err(NotAString)
    else
      var t := Trim(f.value);
      if |t| < 1 then Err(NameRequired)
      else if |t| > MaxNameLength then Err(NameTooLong)
      else Ok(t)
  }

  /** An accepted name is accepted again, unchanged. */
  lemma ParseNameIdempotent(f: Field<string>)
    requires ParseName(f).Ok?
    ensures ParseName(Given(ParseName(f).value)) == ParseName(f)
  {
    TrimIdempotent(f.value);
  }

  predicate IsHexDigit(c: char) {
    ('0' <= c <= '9') || ('a' <= c <= 'f') || ('A' <= c <= 'F')
  }

  /** `z.string().uuid()`: five groups of 8, 4, 4, 4 and 12 hexadecimal digits joined by hyphens. */
  predicate IsUuid(s: string) {
    |s| == 36 &&
    forall i :: 0 <= i < |s| ==>
      if i == 8 || i == 13 || i == 18 || i == 23 then s[i] == '-' else IsHexDigit(s[i])
  }

  /** A canonical UUID passes; the same digits without hyphens, or with one digit short,
      do not. */
  lemma UuidExamples()
    ensures IsUuid("123e4567-e89b-12d3-a456-426614174000")
    ensures !IsUuid("123e4567e89b12d3a456426614174000")
    ensures !IsUuid("123e4567-e89b-12d3-a456-42661417400")
  {
  }

  /** A parent id (`armyId` of a squad, `squadId` of a mini): a UUID that must be present
      on create and may be left out on update. On success the field is kept as it came. */
  function ParseParentId(f: Field<string>, mode: Mode): (r: Option<Field<string>>)
    ensures r.Some? <==> (f.Given? && IsUuid(f.value)) || (f.Absent? && mode == Update)
    ensures r.Some? ==> r.value == f
  {
    match f
    case Given(s) => if IsUuid(s) then Some(f) else None
    case Absent => if mode == Update then Some(Absent) else None
    case _ => None
  }

  /** `z.string().trim().max(3000).nullable().optional()`: missing and `null` pass through,
      a string is trimmed and may then be at most 3000 characters long. */
  function ParseDescription(f: Field<string>): (r: Option<Field<string>>)
    ensures r.Some? <==> !f.Mistyped? && (f.Given? ==> |Trim(f.value)| <= MaxDescriptionLength)
    ensures r.Some? && f.Given? ==> r.value == Given(Trim(f.value))
    ensures r.Some? && !f.Given? ==> r.value == f
  {
    match f
    case Given(s) => if |Trim(s)| <= MaxDescriptionLength then Some(Given(Trim(s))) else None
    case Mistyped => None
    case _ => Some(f)
  }

  /** Every item of a list, trimmed. */
  function TrimEach(xs: seq<string>): (r: seq<string>)
    ensures |r| == |xs| && forall i :: 0 <= i < |xs| ==> r[i] == Trim(xs[i])
  {
    seq(|xs|, i requires 0 <= i < |xs| => Trim(xs[i]))
  }

  /** The tag list is acceptable: at most 30 items, each 1 to 60 characters once trimmed. */
  predicate TagsWithinLimits(xs: seq<string>) {
    |xs| <= MaxTags && forall i :: 0 <= i < |xs| ==> 1 <= |Trim(xs[i])| <= MaxTagLength
  }

  /** `z.array(z.string().trim().min(1).max(60)).max(30).nullable().optional()`. */
  function ParseTags(f: Field<seq<string>>): (r: Option<Field<seq<string>>>)
    ensures r.Some? <==> !f.Mistyped? && (f.Given? ==> TagsWithinLimits(f.value))
    ensures r.Some? && f.Given? ==> r.value == Given(TrimEach(f.value))
    ensures r.Some? && !f.Given? ==> r.value == f
  {
    match f
    case Given(xs) => if TagsWithinLimits(xs) then Some(Given(TrimEach(xs))) else None
    case Mistyped => None
    case _ => Some(f)
  }

  /** Accepted tags are trimmed, non-empty and within the limits. */
  lemma ParsedTagsClean(f: Field<seq<string>>)
    requires ParseTags(f).Some? && f.Given?
    ensures var ts := ParseTags(f).value.value;
      |ts| <= MaxTags &&
      forall i :: 0 <= i < |ts| ==> ts[i] != [] && Trimmed(ts[i]) && |ts[i]| <= MaxTagLength
  {
  }

  datatype ArmyBody = ArmyBody(name: Field<string>)
  datatype ArmyInput = ArmyInput(name: string)

  /** `createArmySchema` and `updateArmySchema`, which are the same schema. */
  function ParseArmyBody(b: ArmyBody): (r: Option<ArmyInput>)
    ensures r.Some? <==> b.name.Given? && 1 <= |Trim(b.name.value)| <= MaxNameLength
    ensures r.Some? ==> r.value.name == Trim(b.name.value)
  {
    match ParseName(b.name)
    case Ok(name) => Some(ArmyInput(name))
    case Err(_) => None
  }

  datatype SquadBody = SquadBody(name: Field<string>, armyId: Field<string>)
  datatype SquadInput = SquadInput(name: string, armyId: Field<string>)

  /** `createSquadSchema` (mode Create) and `updateSquadSchema` (mode Update). */
  function ParseSquadBody(b: SquadBody, mode: Mode): (r: Option<SquadInput>)
    ensures r.Some? <==> ParseName(b.name).Ok? && ParseParentId(b.armyId, mode).Some?
    ensures r.Some? ==> r.value == SquadInput(Trim(b.name.value), b.armyId)
  {
    match (ParseName(b.name), ParseParentId(b.armyId, mode))
    case (Ok(name), Some(armyId)) => Some(SquadInput(name, armyId))
    case _ => None
  }

  datatype MiniBody = MiniBody(
    name: Field<string>,
    squadId: Field<string>,
    description: Field<string>,
    tags: Field<seq<string>>)

  datatype MiniInput = MiniInput(
    name: string,
    squadId: Field<string>,
    description: Field<string>,
    tags: Field<seq<string>>)

  /** `createMiniSchema` (mode Create) and `updateMiniSchema` (mode Update). */
  function ParseMiniBody(b: MiniBody, mode: Mode): (r: Option<MiniInput>)
    ensures r.Some? <==>
      ParseName(b.name).Ok? && ParseParentId(b.squadId, mode).Some? &&
      ParseDescription(b.description).Some? && ParseTags(b.tags).Some?
    ensures r.Some? ==> r.value == MiniInput(
      ParseName(b.name).value, b.squadId,
      ParseDescription(b.description).value, ParseTags(b.tags).value)
  {
    match (ParseName(b.name), ParseParentId(b.squadId, mode),
           ParseDescription(b.description), ParseTags(b.tags))
    case (Ok(name), Some(squadId), Some(description), Some(tags)) =>
      Some(MiniInput(name, squadId, description, tags))
    case _ => None
  }

  /** The parent id is required on create and optional on update, for squads and minis alike:
      a body the create schema accepts is accepted by the update schema, and the update
      schema also accepts it with the parent id left out. */
  lemma ParentIdOptionalOnUpdate(sb: SquadBody, mb: MiniBody)
    ensures ParseSquadBody(sb, Create).Some? ==> sb.armyId.Given? && IsUuid(sb.armyId.value)
    ensures ParseMiniBody(mb, Create).Some? ==> mb.squadId.Given? && IsUuid(mb.squadId.value)
    ensures ParseSquadBody(sb, Create).Some? ==>
      ParseSquadBody(sb, Update).Some? && ParseSquadBody(sb.(armyId := Absent), Update).Some?
    ensures ParseMiniBody(mb, Create).Some? ==>
      ParseMiniBody(mb, Update).Some? && ParseMiniBody(mb.(squadId := Absent), Update).Some?
    ensures ParseSquadBody(sb.(armyId := Absent), Create).None?
    ensures ParseMiniBody(mb.(squadId := Absent), Create).None?
  {
  }

  /** `stageKeySchema`: exactly the five stage names. */
  function ParseStage(s: string): (r: Option<Stage>)
    ensures forall k: Stage :: r == Some(k) <==> s == StageName(k)
  {
    if s == "assembled" then Some(Assembled)
    else if s == "primed" then Some(Primed)
    else if s == "painted" then Some(Painted)
    else if s == "based" then Some(Based)
    else if s == "photographed" then Some(Photographed)
    else None
  }

  datatype ToggleBody = ToggleBody(stage: Field<string>, value: Field<bool>)
  datatype ToggleInput = ToggleInput(stage: Stage, value: bool)

  /** `toggleStageSchema`: a stage that is one of the five names and a boolean value. */
  function ParseToggleBody(b: ToggleBody): (r: Option<ToggleInput>)
    ensures r.Some? <==> b.value.Given? && b.stage.Given? && exists k: Stage :: b.stage.value == StageName(k)
    ensures r.Some? ==> StageName(r.value.stage) == b.stage.value && r.value.value == b.value.value
  {
    match (b.stage, b.value)
    case (Given(s), Given(v)) =>
      (match ParseStage(s)
       case Some(k) => Some(ToggleInput(k, v))
       case None => None)
    case _ => None
  }

  /** The toggle body that the client sends for a stage is accepted and yields that stage. */
  lemma ToggleBodyRoundTrip(k: Stage, v: bool)
    ensures ParseToggleBody(ToggleBody(Given(StageName(k)), Given(v))) == Some(ToggleInput(k, v))
  {
  }

  /** `normalizeNullableText`: `null` for anything but a string, and for a string that is
      blank once trimmed; otherwise the trimmed string. */
  function NormalizeNullableText(f: Field<string>): (r: Option<string>)
    ensures r.None? <==> !f.Given? || Trim(f.value) == []
    ensures r.Some? ==> r.value == Trim(f.value) && r.value != [] && Trimmed(r.value)
  {
    if !f.Given? then None
    else
      var t := Trim(f.value);
      if |t| > 0 then Some(t) else None
  }

  /** Normalising a normalised text again changes nothing. */
  lemma NormalizeNullableTextIdempotent(f: Field<string>)
    requires NormalizeNullableText(f).Some?
    ensures NormalizeNullableText(Given(NormalizeNullableText(f).value)) == NormalizeNullableText(f)
  {
    TrimIdempotent(f.value);
  }

  /** `normalizeNullableTags`: `null` for anything but an array, and when no item is left
      after trimming and dropping blanks; otherwise the trimmed non-blank items. */
  function NormalizeNullableTags(f: Field<seq<string>>): (r: Option<seq<string>>)
    ensures r.None? <==> !f.Given? || forall i :: 0 <= i < |f.value| ==> Trim(f.value[i]) == []
    ensures r.Some? ==> r.value == CleanItems(f.value) && 0 < |r.value| <= |f.value|
  {
    if !f.Given? then None
    else
      CleanItemsEmptyIff(f.value);
      var cleaned := CleanItems(f.value);
      if |cleaned| > 0 then Some(cleaned) else None
  }

  /** Normalising normalised tags again changes nothing. */
  lemma NormalizeNullableTagsIdempotent(f: Field<seq<string>>)
    requires NormalizeNullableTags(f).Some?
    ensures NormalizeNullableTags(Given(NormalizeNullableTags(f).value)) == NormalizeNullableTags(f)
  {
    CleanItemsIdempotent(f.value);
  }
}
