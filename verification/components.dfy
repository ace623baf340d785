/** The component data the modelled code reads and writes. Every component
    carries its kind (its `name` field in the source); kinds the modelled code
    never inspects are kept as opaque `Other` components. Constructors of
    helper factories that are not part of this model (`createBudget`,
    `createDocks`, `createCommodityStorage`, `createTrade`, `createRender`,
    `createRenderGraphics`) are given the plain results described on each. */
module Components {
  import opened Wrappers
  import opened JsNum
  import opened Commodities
  import K = Kinds

  /** One commodity's line of a recipe: the PAC pair. */
  datatype Pac = Pac(consumes: real, produces: real)

  const ZeroPac: Pac := Pac(0.0, 0.0)

  /** A recipe; `pac` holds an entry for every commodity. */
  datatype Recipe = Recipe(time: real, pac: map<Commodity, Pac>)

  /** Inventory: `stored`, `availableWares` and `quota` hold an entry for
      every commodity. */
  datatype CommodityStorage = CommodityStorage(
    max: int,
    stored: map<Commodity, int>,
    availableWares: map<Commodity, int>,
    quota: map<Commodity, int>)

  ghost predicate ValidStorage(s: CommodityStorage) {
    Total(s.stored) && Total(s.availableWares) && Total(s.quota)
  }

  const ZeroPerCommodity: map<Commodity, int> := PerCommodity(_ => 0)

  /** `createCommodityStorage()`: nothing stored, no quota, capacity 0. */
  const NewStorage: CommodityStorage :=
    CommodityStorage(0, ZeroPerCommodity, ZeroPerCommodity, ZeroPerCommodity)

  datatype OfferType = Buy | Sell

  datatype Offer = Offer(active: bool, price: Num, quantity: Num, kind: OfferType)

  /** A price belief `[low, high]`. */
  datatype Belief = Belief(low: Num, high: Num)

  datatype PriceAdjust = PriceAdjust(time: real, commodities: map<Commodity, real>)

  datatype TradeState = TradeState(
    offers: map<Commodity, Offer>,
    pricing: map<Commodity, Belief>,
    lastPriceAdjust: PriceAdjust)

  /** `createTrade()`: no offers yet, a zero belief for every commodity and no
      adjustment so far. core/components/trade.ts is not part of this model,
      and this choice has a consequence: the price adjustment reads an offer
      for every commodity, so a facility made by `Archetypes.CreateFacility`
      or `DeployFacility` makes the first `Trading.Exec` that adjusts it
      throw `TypeError`, before any offers are created. */
  const NewTrade: TradeState :=
    TradeState(map[], PerCommodity(_ => Belief(Fin(0.0), Fin(0.0))), PriceAdjust(0.0, map[]))

  datatype JournalEntry =
    | TradeEntry(time: real, commodity: Commodity, action: OfferType, quantity: real, price: real, target: string)
    | OtherEntry(time: real)

  datatype Coord = Coord(x: real, y: real)

  /** A render colour: the owner's colour, or the grey `hsl(0, 0, 70)`. */
  datatype RenderColor = OwnerColor(value: ColorValue) | DefaultGrey

  datatype RenderProps = RenderProps(
    color: RenderColor, defaultScale: real, maxZ: real, texture: string,
    layer: string, zIndex: int, sprite: Option<int>)

  datatype ColorValue = RotatedRgb(r: int, g: int, b: int, degrees: real) | Css(value: string)

  datatype PriceStats = PriceStats(buy: seq<real>, sell: seq<real>)

  datatype OrderOrigin = Auto | Manual

  /** An atomic action; the modelled code only moves these around. */
  datatype Action = MoveAction(targetId: int) | OtherAction(tag: string)

  datatype Order = Order(kind: string, actions: seq<Action>, origin: OrderOrigin)

  /** A serialisable field of an opaque component; `Handle` stands for a live
      object reference (the `sim`, `g` and `sprite` fields). */
  datatype Field = Plain(text: string) | Handle(ref: int)

  datatype Component =
    | Budget(available: real)
    | Docks(large: nat, medium: nat, small: nat, docked: seq<int>)
    | FacilityModuleQueue(building: Option<int>, queue: seq<int>)
    | Modules(ids: seq<int>)
    | Position(angle: real, coord: Coord, sector: int, moved: bool)
    | Render(props: RenderProps)
    | Storage(storage: CommodityStorage)
    | Trade(trade: TradeState)
    | Journal(entries: seq<JournalEntry>)
    | Hitpoints(hpMax: real, regen: real, hp: real, g: Option<int>)
    | Name(value: string, slug: Option<string>)
    | Owner(ownerId: int)
    | HecsPosition(hex: (real, real, real))
    | SectorStats(availableResources: map<Commodity, seq<real>>, prices: map<Commodity, PriceStats>)
    | RenderGraphics(draw: string, graphics: Option<int>)
    | Color(color: ColorValue)
    | Parent(parentId: int)
    | Production(recipe: Recipe)
    | CompoundProduction(pac: map<Commodity, Pac>)
    | StorageBonus(bonus: int)
    | Teleport(destinationId: Option<int>)
    | Orders(orders: seq<Order>)
    | AutoOrder(defaultType: string)
    | Drive(targetReached: bool)
    | Mining(entityId: Option<int>)
    | Minable(minedById: Option<int>)
    | AsteroidSpawn(amount: int)
    | SelectionManager(selectedId: Option<int>, secondaryId: Option<int>, focused: bool)
    | Other(other: K.ComponentKind, fields: map<string, Field>)
  {
    /** The component's `name`, i.e. the key it is stored under. */
    function Kind(): K.ComponentKind {
      match this
      case Budget(_) => K.Budget
      case Docks(_, _, _, _) => K.Docks
      case FacilityModuleQueue(_, _) => K.FacilityModuleQueue
      case Modules(_) => K.Modules
      case Position(_, _, _, _) => K.Position
      case Render(_) => K.Render
      case Storage(_) => K.Storage
      case Trade(_) => K.Trade
      case Journal(_) => K.Journal
      case Hitpoints(_, _, _, _) => K.Hitpoints
      case Name(_, _) => K.Name
      case Owner(_) => K.Owner
      case HecsPosition(_) => K.HecsPosition
      case SectorStats(_, _) => K.SectorStats
      case RenderGraphics(_, _) => K.RenderGraphics
      case Color(_) => K.Color
      case Parent(_) => K.Parent
      case Production(_) => K.Production
      case CompoundProduction(_) => K.CompoundProduction
      case StorageBonus(_) => K.StorageBonus
      case Teleport(_) => K.Teleport
      case Orders(_) => K.Orders
      case AutoOrder(_) => K.AutoOrder
      case Drive(_) => K.Drive
      case Mining(_) => K.Mining
      case Minable(_) => K.Minable
      case AsteroidSpawn(_) => K.AsteroidSpawn
      case SelectionManager(_, _, _) => K.SelectionManager
      case Other(k, _) => k
    }

    /** The component without its live-object fields `sim`, `g` and `sprite`
        (`omit(component, ["sim", "g", "sprite"])`). */
    function Strip(): Component {
      match this
      case Hitpoints(m, r, v, _) => Hitpoints(m, r, v, None)
      case Render(p) => Render(p.(sprite := None))
      case RenderGraphics(d, _) => RenderGraphics(d, None)
      case Other(k, f) => Other(k, f - {"sim", "g", "sprite"})
      case _ => this
    }

    /** The component holds no live-object field. */
    predicate IsPlain() {
      match this
      case Hitpoints(_, _, _, g) => g.None?
      case Render(p) => p.sprite.None?
      case RenderGraphics(_, g) => g.None?
      case Other(_, f) => "sim" !in f && "g" !in f && "sprite" !in f
      case _ => true
    }
  }

  /** Stripping keeps the kind, leaves a plain component, and changes nothing
      in a component that was plain already. */
  lemma StripProperties(c: Component)
    ensures c.Strip().Kind() == c.Kind()
    ensures c.Strip().IsPlain()
    ensures c.IsPlain() ==> c.Strip() == c
  {
    match c
    case Hitpoints(_, _, _, _) =>
    case Render(_) =>
    case RenderGraphics(_, _) =>
    case Other(k, f) =>
      var f' := f - {"sim", "g", "sprite"};
      assert "sim" !in f' && "g" !in f' && "sprite" !in f';
      if c.IsPlain() { assert f' == f; }
    case _ =>
  }

  /** `createBudget()`: nothing available. */
  const NewBudget: Component := Budget(0.0)

  /** `createDocks(sizes)`: the given pads and nothing docked. */
  function NewDocks(large: nat, medium: nat, small: nat): Component {
    Docks(large, medium, small, [])
  }
}
