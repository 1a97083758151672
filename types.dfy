/** The dashboard's data: a tree of armies, their squads and the squads' minis,
    with each mini carrying five completion stages and their timestamps. */
module Types {
  import opened Wrappers

  /** The five completion stages of a mini. */
  datatype Stage = Assembled | Primed | Painted | Based | Photographed

  /** The stages in their fixed order. */
  const StageKeys: seq<Stage> := [Assembled, Primed, Painted, Based, Photographed]

  /** The key under which a stage travels in requests and responses. */
  function StageName(s: Stage): string {
    match s
    case Assembled => "assembled"
    case Primed => "primed"
    case Painted => "painted"
    case Based => "based"
    case Photographed => "photographed"
  }

  /** The position of a stage in the fixed order. */
  function StageIndex(s: Stage): (i: nat)
    ensures i < |StageKeys| && StageKeys[i] == s
  {
    match s
    case Assembled => 0
    case Primed => 1
    case Painted => 2
    case Based => 3
    case Photographed => 4
  }

  /** A mini as the client holds it. Timestamps are ISO strings; `None` is `null`. */
  datatype Mini = Mini(
    id: string,
    squadId: string,
    name: string,
    description: Option<string>,
    tags: Option<seq<string>>,
    assembled: bool,
    primed: bool,
    painted: bool,
    based: bool,
    photographed: bool,
    assembledAt: Option<string>,
    primedAt: Option<string>,
    paintedAt: Option<string>,
    basedAt: Option<string>,
    photographedAt: Option<string>,
    createdAt: string,
    updatedAt: string)

  datatype Squad = Squad(
    id: string,
    armyId: string,
    name: string,
    createdAt: string,
    updatedAt: string,
    minis: seq<Mini>)

  datatype Army = Army(
    id: string,
    name: string,
    createdAt: string,
    updatedAt: string,
    squads: seq<Squad>)

  datatype Tree = Tree(armies: seq<Army>)

  /** `mini[stage]`: the flag of one stage. */
  function Flag(m: Mini, s: Stage): bool {
    match s
    case Assembled => m.assembled
    case Primed => m.primed
    case Painted => m.painted
    case Based => m.based
    case Photographed => m.photographed
  }

  /** The timestamp paired with a stage (`assembledAt` for `assembled`, and so on). */
  function Stamp(m: Mini, s: Stage): Option<string> {
    match s
    case Assembled => m.assembledAt
    case Primed => m.primedAt
    case Painted => m.paintedAt
    case Based => m.basedAt
    case Photographed => m.photographedAt
  }

  /** Every stage flag is true exactly when its timestamp is set. */
  predicate StampsPaired(m: Mini) {
    forall s: Stage :: Flag(m, s) <==> Stamp(m, s).Some?
  }

  /** The minis of a squad list, squad by squad (`squads.flatMap((squad) => squad.minis)`). */
  function SquadMinis(squads: seq<Squad>): seq<Mini>
    decreases |squads|
  {
    if squads == [] then [] else SquadMinis(squads[..|squads| - 1]) + squads[|squads| - 1].minis
  }

  /** The minis of an army list, army by army. */
  function ArmyMinis(armies: seq<Army>): seq<Mini>
    decreases |armies|
  {
    if armies == [] then [] else ArmyMinis(armies[..|armies| - 1]) + SquadMinis(armies[|armies| - 1].squads)
  }

  /** Every mini of the tree, in army, squad, mini order. */
  function AllMinis(t: Tree): seq<Mini> {
    ArmyMinis(t.armies)
  }

  lemma {:induction false} SquadMinisAppend(a: seq<Squad>, b: seq<Squad>)
    ensures SquadMinis(a + b) == SquadMinis(a) + SquadMinis(b)
    decreases |b|
  {
    if b == [] {
      assert a + b == a;
    } else {
      var last := b[|b| - 1];
      assert (a + b)[..|a + b| - 1] == a + b[..|b| - 1];
      SquadMinisAppend(a, b[..|b| - 1]);
    }
  }

  lemma {:induction false} ArmyMinisAppend(a: seq<Army>, b: seq<Army>)
    ensures ArmyMinis(a + b) == ArmyMinis(a) + ArmyMinis(b)
    decreases |b|
  {
    if b == [] {
      assert a + b == a;
    } else {
      assert (a + b)[..|a + b| - 1] == a + b[..|b| - 1];
      ArmyMinisAppend(a, b[..|b| - 1]);
    }
  }
}
