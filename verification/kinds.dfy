/** The closed set of component kinds. The first 51 are the keys of the core
    component table, in the order of core/components/masks.ts; `StorageBonus`
    is the older generation's storage-bonus component, which the core table
    does not list. */
module Kinds {

  datatype ComponentKind =
    | Ai
    | AsteroidSpawn
    | AutoOrder
    | Blueprints
    | Budget
    | Builder
    | Camera
    | Children
    | Color
    | Commander
    | CompoundProduction
    | CreationDate
    | Damage
    | Deployable
    | Disposable
    | Dockable
    | Docks
    | Drive
    | FacilityModuleQueue
    | HecsPosition
    | Hitpoints
    | InflationStats
    | Journal
    | Minable
    | Mining
    | Missions
    | Model
    | Orders
    | Relations
    | RenderGraphics
    | SectorStats
    | Shipyard
    | Subordinates
    | SystemManager
    | Teleport
    | Trade
    | Modules
    | Name
    | Owner
    | Parent
    | Production
    | Position
    | Render
    | SelectionManager
    | SimpleCommodityStorage
    | Storage
    | FacilityModuleBonus
    | Crew
    | CrewRequirement
    | Movable
    | StorageTransfer
    | StorageBonus

  const KindCount: nat := 52

  /** Position of a kind in declaration order. */
  function Ordinal(k: ComponentKind): nat {
    match k
    case Ai => 0
    case AsteroidSpawn => 1
    case AutoOrder => 2
    case Blueprints => 3
    case Budget => 4
    case Builder => 5
    case Camera => 6
    case Children => 7
    case Color => 8
    case Commander => 9
    case CompoundProduction => 10
    case CreationDate => 11
    case Damage => 12
    case Deployable => 13
    case Disposable => 14
    case Dockable => 15
    case Docks => 16
    case Drive => 17
    case FacilityModuleQueue => 18
    case HecsPosition => 19
    case Hitpoints => 20
    case InflationStats => 21
    case Journal => 22
    case Minable => 23
    case Mining => 24
    case Missions => 25
    case Model => 26
    case Orders => 27
    case Relations => 28
    case RenderGraphics => 29
    case SectorStats => 30
    case Shipyard => 31
    case Subordinates => 32
    case SystemManager => 33
    case Teleport => 34
    case Trade => 35
    case Modules => 36
    case Name => 37
    case Owner => 38
    case Parent => 39
    case Production => 40
    case Position => 41
    case Render => 42
    case SelectionManager => 43
    case SimpleCommodityStorage => 44
    case Storage => 45
    case FacilityModuleBonus => 46
    case Crew => 47
    case CrewRequirement => 48
    case Movable => 49
    case StorageTransfer => 50
    case StorageBonus => 51
  }

  /** The kind at a position of declaration order. */
  function KindAt(i: nat): ComponentKind
    requires i < KindCount
  {
    match i
    case 0 => Ai
    case 1 => AsteroidSpawn
    case 2 => AutoOrder
    case 3 => Blueprints
    case 4 => Budget
    case 5 => Builder
    case 6 => Camera
    case 7 => Children
    case 8 => Color
    case 9 => Commander
    case 10 => CompoundProduction
    case 11 => CreationDate
    case 12 => Damage
    case 13 => Deployable
    case 14 => Disposable
    case 15 => Dockable
    case 16 => Docks
    case 17 => Drive
    case 18 => FacilityModuleQueue
    case 19 => HecsPosition
    case 20 => Hitpoints
    case 21 => InflationStats
    case 22 => Journal
    case 23 => Minable
    case 24 => Mining
    case 25 => Missions
    case 26 => Model
    case 27 => Orders
    case 28 => Relations
    case 29 => RenderGraphics
    case 30 => SectorStats
    case 31 => Shipyard
    case 32 => Subordinates
    case 33 => SystemManager
    case 34 => Teleport
    case 35 => Trade
    case 36 => Modules
    case 37 => Name
    case 38 => Owner
    case 39 => Parent
    case 40 => Production
    case 41 => Position
    case 42 => Render
    case 43 => SelectionManager
    case 44 => SimpleCommodityStorage
    case 45 => Storage
    case 46 => FacilityModuleBonus
    case 47 => Crew
    case 48 => CrewRequirement
    case 49 => Movable
    case 50 => StorageTransfer
    case _ => StorageBonus
  }

  /** The kind's key in a component record, as the source spells it. */
  function Key(k: ComponentKind): string {
    match k
    case Ai => "ai"
    case AsteroidSpawn => "asteroidSpawn"
    case AutoOrder => "autoOrder"
    case Blueprints => "blueprints"
    case Budget => "budget"
    case Builder => "builder"
    case Camera => "camera"
    case Children => "children"
    case Color => "color"
    case Commander => "commander"
    case CompoundProduction => "compoundProduction"
    case CreationDate => "creationDate"
    case Damage => "damage"
    case Deployable => "deployable"
    case Disposable => "disposable"
    case Dockable => "dockable"
    case Docks => "docks"
    case Drive => "drive"
    case FacilityModuleQueue => "facilityModuleQueue"
    case HecsPosition => "hecsPosition"
    case Hitpoints => "hitpoints"
    case InflationStats => "inflationStats"
    case Journal => "journal"
    case Minable => "minable"
    case Mining => "mining"
    case Missions => "missions"
    case Model => "model"
    case Orders => "orders"
    case Relations => "relations"
    case RenderGraphics => "renderGraphics"
    case SectorStats => "sectorStats"
    case Shipyard => "shipyard"
    case Subordinates => "subordinates"
    case SystemManager => "systemManager"
    case Teleport => "teleport"
    case Trade => "trade"
    case Modules => "modules"
    case Name => "name"
    case Owner => "owner"
    case Parent => "parent"
    case Production => "production"
    case Position => "position"
    case Render => "render"
    case SelectionManager => "selectionManager"
    case SimpleCommodityStorage => "simpleCommodityStorage"
    case Storage => "storage"
    case FacilityModuleBonus => "facilityModuleBonus"
    case Crew => "crew"
    case CrewRequirement => "crewRequirement"
    case Movable => "movable"
    case StorageTransfer => "storageTransfer"
    case StorageBonus => "storageBonus"
  }

  lemma OrdinalInverse(k: ComponentKind)
    ensures Ordinal(k) < KindCount && KindAt(Ordinal(k)) == k
  {
    if Ordinal(k) < 13 {
      OrdinalInverseFrom(k, 0);
    } else if Ordinal(k) < 26 {
      OrdinalInverseFrom(k, 13);
    } else if Ordinal(k) < 39 {
      OrdinalInverseFrom(k, 26);
    } else {
      OrdinalInverseFrom(k, 39);
    }
  }

  /** `OrdinalInverse` for the kinds at positions `lo` to `lo + 12`. */
  lemma OrdinalInverseFrom(k: ComponentKind, lo: nat)
    requires lo in {0, 13, 26, 39} && lo <= Ordinal(k) < lo + 13
    ensures Ordinal(k) < KindCount && KindAt(Ordinal(k)) == k
  {
  }

  lemma KindAtInverse(i: nat)
    requires i < KindCount
    ensures Ordinal(KindAt(i)) == i
  {
  }

  /** Every kind, each once, in declaration order. */
  function AllKinds(): (ks: seq<ComponentKind>)
    ensures |ks| == KindCount
    ensures forall k :: k in ks
    ensures forall i :: 0 <= i < |ks| ==> ks[i] == KindAt(i)
  {
    var ks := seq(KindCount, i requires 0 <= i < KindCount => KindAt(i));
    forall k ensures k in ks {
      OrdinalInverse(k);
      assert ks[Ordinal(k)] == k;
    }
    ks
  }
}
