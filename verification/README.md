# sector-alpha simulation core in Dafny

A functional model of the simulation core of sector-alpha, a space-economy game. The repository holds two generations of the engine, and both are modelled as written, side by side. Where the code falls short of what it evidently intends, a corrected member sits beside the as-written one, and the table under Findings names both; the rest of the model, the planners included, runs on the code as written.

- **The current engine (`core/`).** It has an entity store in which every entity is an integer id with a bag of components keyed by component kind, plus a bit mask per kind and the `Sim` registry with its phase hooks and in-memory save/load. Its per-tick systems are also modelled:
  - production with its capability gate;
  - price beliefs and trade offers, with the recursive production cost;
  - the mining and deploy-facility order actions;
  - the ship-returning AI;
  - the facility planner.
- **The older engine (`src/`).** It has a list-based `Sim` that runs a fixed list of systems, the faction and facility-module templates with their recipe table, and module attachment into a facility's compound production. It also has the per-commodity record builder, money, storage-quota settlement and its own facility planner.

Each source file maps to one Dafny module: `Entities`, `Masks`, `CoreSim`, `LegacySim`, `Archetypes`, `LegacyArchetypes`, `EntityModules`, `Commodities`, `Money`, `Producing`, `StorageQuota`, `Pricing`, `ProductionCost`, `Trading`, `Mining`, `DeployFacility`, `ShipReturning`, `FacilityPlanning` and `LegacyFacilityPlanning`. Shared support modules:

- `Wrappers` holds `Option`/`Result` and the error kinds the code throws.
- `Kinds` holds the closed set of component kinds.
- `Components` holds the component records.
- `JsNum` holds JavaScript numbers with their infinities and NaN.
- `Cooldowns` and `Stores` hold simple stand-ins for helpers whose source is not part of this model.

Operations are pure functions from a state to a `Result` of the next state. A `throw` in the source becomes a `Failure` carrying the error kind. Every random draw (`random`, `Math.random`, `randomInt`, `shuffle`, `pickRandom`) is a parameter, with its range as a precondition where the proofs need it.

## Model

| member | source | states |
|---|---|---|
| `Entities.HasComponentsIff` | core/components/entity.ts:50-52 | `hasComponents(names)` holds exactly when every listed component is present, so the empty list yields true |
| `Entities.RequireComponents` | core/components/entity.ts:54-62 | the same entity back when every listed component is present, `MissingComponentError` for the entity otherwise |
| `Entities.AddComponent` | core/components/entity.ts:64-75 | the component is stored under its own kind (overwriting), every other key keeps its value, id, tags and cooldowns are kept, and exactly one `addComponent` hook fires |
| `Entities.RemoveComponent` | core/components/entity.ts:77-82 | the key is gone (absent or not, no error), every other key keeps its value, and exactly one `removeComponent` hook fires |
| `Entities.AddComponents` | core/components/entity.ts:64-75 | a chain of `addComponent` calls fires one hook per component, in call order |
| `Entities.AddThenRemove` | core/components/entity.ts:64-82 | adding a component the entity lacked and removing it again gives the entity back |
| `Entities.PresenceAfterMutation` | core/components/entity.ts:50-82 | after `addComponent` the kind is present, after `removeComponent` it is absent, and presence tests of other kinds do not change |
| `Entities.AddTag` | core/sim/Sim.ts:38 | the tag joins the tag set, components and id are kept, and the `addTag` hook fires once |
| `Components.StripProperties` | core/components/entity.ts:12-23 | a serialised component keeps its plain fields and loses the live `sim`, `g` and `sprite` fields |
| `Entities.ComponentsToJSON` | core/components/entity.ts:12-23 | one entry per component key, no key twice, each component stripped of its live fields |
| `Entities.ToJSONAsWritten` | core/components/entity.ts:89-91 | the serialised entity carries components, cooldowns and id, and no tags |
| `Entities.ToJSON` | core/components/entity.ts:89-91 | the serialised entity with the tag set among the picked fields, as loading expects |
| `CoreSim.EmptyValid` | core/sim/Sim.ts:29-58 | a new simulation, with an empty entity map and counter 0, satisfies the registry's bookkeeping |
| `CoreSim.RegisterEntity` | core/sim/Sim.ts:81-85 | the entity receives the counter as id, is stored under it, and the counter grows by one |
| `CoreSim.RegisterKeepsValid` | core/sim/Sim.ts:81-85 | the new id was free, ids stay unique, increasing in iteration order and below the counter |
| `CoreSim.NewEntity` | core/components/entity.ts:39-44 | constructing an entity with a simulation registers it under the current counter |
| `CoreSim.UnregisterEntity` | core/sim/Sim.ts:87-90 | the `removeEntity` hook is logged with the entity, then its id (and only it) leaves the map; the counter is kept |
| `CoreSim.Unregister` | core/components/entity.ts:84-87 | `unregister` removes the entity and the hook sees it already marked deleted |
| `CoreSim.UnregisterKeepsValid` | core/sim/Sim.ts:87-90 | unregistering keeps the registry's bookkeeping (iteration order, ids below the counter) |
| `CoreSim.RegisterThenUnregister` | core/sim/Sim.ts:81-90 | registering then unregistering restores the map and order while the counter keeps its advance, so ids are never reused |
| `CoreSim.AddComponentTo` | core/components/entity.ts:64-75 | `addComponent` on a registered entity updates only that entity and logs one hook; an unknown id is `MissingEntityError` |
| `CoreSim.AddComponentsTo` | core/sim/Sim.ts:104-125 | a chain of `addComponent` calls adds exactly the chain's kinds and logs one hook per call, in order |
| `CoreSim.AddTagTo` | core/sim/Sim.ts:38 | `addTag` on a registered entity updates only that entity's tags and logs one hook |
| `CoreSim.Next` | core/sim/Sim.ts:92-101 | six phase hooks start, init, update, render, cleanup, end, each with the same delta, then the timer advances by delta; entities untouched |
| `CoreSim.NewEntityWith` | core/sim/Sim.ts:103-125 | a new entity under the current counter holds exactly the kinds it was given and one hook is logged per component |
| `CoreSim.InitSettingsKinds` | core/sim/Sim.ts:103-126 | the settings entity holds exactly selectionManager, systemManager, inflationStats and camera |
| `CoreSim.InitSettings` | core/sim/Sim.ts:103-126 | `init()` registers the settings entity under the current counter and logs its four `addComponent` hooks in order |
| `CoreSim.GetTracksRegistry` | core/sim/Sim.ts:145-146 | `get` finds a newly registered entity under the id it received and nothing under an unregistered id, and every other id keeps what it found |
| `CoreSim.GetOrThrow` | core/sim/Sim.ts:153-161 | the stored entity for a known id, `MissingEntityError(id)` for an unknown one |
| `CoreSim.Find` | core/sim/Sim.ts:129-135 | the first entity in iteration order satisfying the callback, or nothing exactly when none does |
| `CoreSim.Filter` | core/sim/Sim.ts:138-139 | exactly the stored entities satisfying the callback |
| `CoreSim.FilterFrom` | core/sim/Sim.ts:138-139 | scanning from any position in iteration order yields exactly the later entities satisfying the callback |
| `CoreSim.SerializeWith` | core/sim/Sim.ts:252-257 | the snapshot holds the counter, the time offset and one serialised entity per entity, in iteration order |
| `CoreSim.ToJSONAsWritten` | core/sim/Sim.ts:252-257 | the snapshot as written: no serialised entity carries tags |
| `CoreSim.ToJSON` | core/sim/Sim.ts:252-257 | the snapshot with every entity's tag set |
| `CoreSim.PairsToMapFacts` | core/sim/Sim.ts:225-228 | re-wrapping serialised components with distinct keys gives back exactly the listed components |
| `CoreSim.LoadEntity` | core/sim/Sim.ts:221-234 | a loaded entity keeps id and cooldowns, gets its components re-wrapped and tags as a set; a key without a mask makes the BigInt OR throw |
| `CoreSim.LoadAll` | core/sim/Sim.ts:221-234 | every saved entity is loaded, in order; the first that throws stops the load |
| `CoreSim.Load` | core/sim/Sim.ts:204-239 | the loaded simulation keeps the saved counter and time offset and starts with no hook calls |
| `CoreSim.ComponentsRoundTrip` | core/sim/Sim.ts:225-228 | serialising a component bag and re-wrapping it gives every component back, stripped |
| `CoreSim.LoadedMaskBits` | core/sim/Sim.ts:229-232 | the rebuilt mask has bit n exactly when some component kind sits at position n of the table |
| `CoreSim.LoadEntityOfJSON` | core/sim/Sim.ts:221-234 | an entity whose components all have a mask loads back with its id, cooldowns, stripped components, saved tags and exact mask bits |
| `CoreSim.LoadRejectsUnmaskedKind` | core/sim/Sim.ts:229-232 | a saved storage-bonus component, which has no mask, makes loading throw |
| `CoreSim.BuildMapFacts` | core/sim/Sim.ts:219-236 | the rebuilt map holds each loaded entity under its own id, in load order |
| `CoreSim.LoadAllOfToJSON` | core/sim/Sim.ts:221-257 | every entity of a saved valid simulation loads back with its id, tags, cooldowns and stripped components |
| `CoreSim.LoadKeepsSavedOrder` | core/sim/Sim.ts:219-236 | loaded entities with distinct ids keep the saved order, each under its own id |
| `CoreSim.LoadedInSavedOrder` | core/sim/Sim.ts:219-236 | entities reloaded in saved order rebuild the same iteration order and entity table |
| `CoreSim.SaveLoadRoundTrip` | core/sim/Sim.ts:204-257 | save (with tags) then load gives back counter, time offset, order, ids, tags, cooldowns and stripped components |
| `CoreSim.LoadAsWrittenDropsTags` | core/sim/Sim.ts:233 | as written every loaded entity comes back with an empty tag set |
| `CoreSim.TagLostCounterexample` | core/components/entity.ts:89-91 | a one-entity simulation tagged "facility" loses its tag on save and load as written |
| `Masks.MaskOrderListsEachKindOnce` | core/components/masks.ts:4-55 | the mask table names each component kind at most once, and names every kind except the storage bonus |
| `Masks.IndexMatchesOrder` | core/components/masks.ts:4-62 | a kind has a table entry exactly when it is listed, and its index is its list position |
| `Masks.OrderMatchesIndex` | core/components/masks.ts:56-62 | the name at position i has index i |
| `Masks.MaskOf` | core/components/masks.ts:56-62 | `componentMask[k]` is defined exactly for listed names |
| `Masks.MaskIsPositionPower` | core/components/masks.ts:56-62 | each listed name maps to 2 to the power of its position |
| `Masks.MaskSingleBit` | core/components/masks.ts:59 | every mask is positive with exactly one bit set, at a position from 0 to 50 |
| `Masks.FirstMaskIsOne` | core/components/masks.ts:5 | the table has 51 entries and `ai` has mask 1 |
| `Masks.MasksDisjoint` | core/components/masks.ts:4-62 | masks of two different names have no common bit |
| `Masks.FoldMaskBits` | core/sim/Sim.ts:229-232 | the OR-fold succeeds exactly when every key has a mask, and then has bit n exactly when the start value or some key's position has it |
| `Commodities.SpreadContents` | src/utils/perCommodity.ts:12-15 | the reduce keeps the accumulator's keys plus the entries' keys, each entry's value under its key and every other value untouched |
| `Commodities.AllListsEveryCommodityOnce` | src/utils/perCommodity.ts:7 | `commoditiesArray` lists every commodity exactly once |
| `Commodities.SpreadAllEntries` | src/utils/perCommodity.ts:7-15 | spreading the entries of all commodities into an empty record defines every commodity c as `cb(c)` |
| `Commodities.PerCommodity` | src/utils/perCommodity.ts:3-16 | the record has an entry for every commodity, and the entry for c is `cb(c)` |
| `Commodities.PerCommodityCallOrder` | src/utils/perCommodity.ts:7-11 | `cb` is called once per commodity, in the order of `commoditiesArray` |
| `Commodities.PerCommodityExtensional` | src/utils/perCommodity.ts:3-16 | callbacks that agree on every commodity give equal records, so a pure callback gives equal records on two calls |
| `Money.ChangeMoney` | src/economy/budget.ts:6-12 | the balance moves by the value, and `NegativeBudget` with the new balance is thrown after the write exactly when it is negative |
| `Money.ChangeMoneyInverse` | src/economy/budget.ts:6-12 | a change followed by its opposite restores the balance |
| `Money.TransferMoney` | src/economy/budget.ts:14-21 | `InsufficientMoney` and no change when the balance is below the value; otherwise the source loses and the target gains the value, and the sum of both is conserved |
| `Money.TransferToSelf` | src/economy/budget.ts:14-21 | a transfer to the same budget leaves the balance as it was, or refuses it with `InsufficientMoney` |
| `Money.TransferNeverThrows` | src/economy/budget.ts:14-21 | from a covering balance into a non-negative one, a transfer never throws and both balances stay non-negative |
| `Money.TransferEffect` | src/economy/budget.ts:15-20 | `InsufficientMoney` is thrown exactly when the balance is below the value, and a transfer that does not throw moves exactly the value |
| `Kinds.OrdinalInverse` | core/components/masks.ts:4-55 | every component kind has a position in the kind list, and the kind at that position is itself |
| `Kinds.AllKinds` | core/components/masks.ts:4-55 | every component kind, each once, in the order of the mask table |
| `LegacySim.RegisterEntity` | src/sim/Sim.ts:53-57 | the entity takes the counter as id and is appended, the counter grows by one, and events, systems and factions are kept |
| `LegacySim.RegisterKeepsValid` | src/sim/Sim.ts:53-57 | registration keeps entity i of the list having id i and the counter equal to the list length, the new id being the old length |
| `LegacySim.ValidIdsIncrease` | src/sim/Sim.ts:53-57 | in a registry built by registration, ids are strictly increasing in list order and below the counter |
| `LegacySim.NewEntity` | src/sim/Sim.ts:34 | a blank entity built with the sim is registered under the current counter, with no components and no event |
| `LegacySim.AddComponentTo` | src/sim/Sim.ts:22 | adding a component to a registered entity stores it under its kind, changes no other entity, and emits one `add-component` event |
| `LegacySim.Create` | src/sim/Sim.ts:29-51 | a new sim holds only the settings entity, id 0, with a selection manager set by direct assignment (no event), no factions and the ten systems in their constructor order |
| `LegacySim.Load` | src/sim/Sim.ts:59-61 | `load` replaces the faction list and nothing else |
| `LegacySim.Next` | src/sim/Sim.ts:63-65 | `next(delta)` appends one pass of `exec` calls and leaves entities, systems, events and factions alone |
| `LegacySim.TicksRepeatSystems` | src/sim/Sim.ts:63-65 | n ticks of the same length make the calls of one tick n times over and never change the system list or entities |
| `LegacySim.FirstTickOrder` | src/sim/Sim.ts:39-50 | the first tick of a new sim runs the systems from budget planning to order executing, in that order |
| `Archetypes.AsFacility` | core/archetypes/facility.ts:16-34 | `facility(entity)` succeeds exactly when all ten facility components are present, else `MissingComponentError` for the entity |
| `Archetypes.FacilityName` | core/archetypes/facility.ts:42-54 | the name is "<owner slug> <sector name> <label>" when the entity has a truthy owner id and "<sector name> <label>" otherwise; a missing sector throws `MissingEntityError`, a missing name throws |
| `Archetypes.NameWithoutOwner` | core/archetypes/facility.ts:49-53 | without an owner and with a named sector, the name is the sector's name followed by the label |
| `Archetypes.FacilityColor` | core/archetypes/facility.ts:76-78 | no owner gives the default grey, an owner without a colour component throws |
| `Archetypes.ApplyBaseKinds` | core/archetypes/facility.ts:59-91 | ten `addComponent` calls of the ten base kinds fill exactly one entry per kind |
| `Archetypes.BaseApplied` | core/archetypes/facility.ts:59-91 | the base stage gives the budget, docks 1/3/3, an idle queue, no modules, the requested position at angle 0, the render, empty storage, fresh trade, an empty journal and 100000 hit points |
| `Archetypes.BaseBag` | core/archetypes/facility.ts:59-91 | after the base stage every facility component but the name is present, there is no owner, and the position is the requested one |
| `Archetypes.WithBase` | core/archetypes/facility.ts:57-91 | the base stage registers the entity under the current counter with no tags and the base bag, leaving every other entity alone |
| `Archetypes.Tagged` | core/archetypes/facility.ts:99-100 | two `addTag` calls add both tags to the entity and change no other entity |
| `Archetypes.Finished` | core/archetypes/facility.ts:92-107 | the finished entity keeps its id, gains both tags and the name, has an owner component exactly when one was given, and keeps every other component |
| `Archetypes.Finish` | core/archetypes/facility.ts:92-107 | the name, tag and owner stages update only the new entity, and the counter is kept |
| `Archetypes.Build` | core/archetypes/facility.ts:56-110 | once the colour is known, creation succeeds exactly when the sector is registered, is not the new entity, and has a name; an unknown sector throws `MissingEntityError` |
| `Archetypes.CreateFacility` | core/archetypes/facility.ts:56-110 | creation succeeds exactly when the owner colour can be read and the sector is usable, and the new facility is stored under the old counter |
| `Archetypes.NewFacilityName` | core/archetypes/facility.ts:92-98 | the name is computed before the owner is attached, so a new facility is named "<sector name> Facility" |
| `Archetypes.BuildIsFinish` | core/archetypes/facility.ts:56-110 | a successful build is the base entity finished with "<sector name> Facility", and `facility(entity)` passes it through unchanged |
| `Archetypes.FinishedBase` | core/archetypes/facility.ts:59-107 | a finished base entity has both tags, all ten facility components, an owner exactly when given, the requested position and the given name |
| `Archetypes.BuiltFacility` | core/archetypes/facility.ts:56-110 | building in a usable sector succeeds, and the facility has every facility component, both tags, the requested position, "<sector name> Facility" as its name, and every other entity is unchanged |
| `Archetypes.CreatedFacility` | core/archetypes/facility.ts:56-110 | creation succeeds whenever the owner's colour resolves and the sector is usable, and the facility has every facility component, both tags, an owner exactly when one was given, the requested position, the sector-based name, and leaves other entities alone |
| `Archetypes.AsSector` | core/archetypes/sector.ts:12-29 | `sector(entity)` returns the entity exactly when the four sector components are present, else `MissingComponentError` |
| `Archetypes.NewSectorStats` | core/archetypes/sector.ts:49-51 | fresh statistics hold an empty sample list for exactly the mineable commodities and empty buy and sell samples for every commodity |
| `Archetypes.SectorBag` | core/archetypes/sector.ts:36-52 | the sector's bag has all four sector components, with the given name, hex position and fresh statistics |
| `Archetypes.NewTaggedEntity` | core/archetypes/sector.ts:36-55 | a new entity under the current counter holds exactly the added components and the two tags, and every other entity is unchanged |
| `Archetypes.CreateSector` | core/archetypes/sector.ts:36-57 | `createSector` registers the sector under the old counter, with the sector bag and the tags `sector` and `selection`, leaving others alone |
| `Archetypes.NewSectorIsSector` | core/archetypes/sector.ts:23-57 | a created sector passes `sector(entity)` unchanged |
| `Archetypes.FacilityInNewSector` | core/archetypes/facility.ts:56-110 | an ownerless facility placed in a freshly created sector is always created and is named "<sector name> Facility" |
| `LegacyArchetypes.AsFaction` | src/archetypes/faction.ts:10-21 | `faction(entity)` returns the entity exactly when it has colour, budget and name, else `MissingComponentError` for it |
| `LegacyArchetypes.CreateFaction` | src/archetypes/faction.ts:23-37 | a new faction is registered at the end of the list under the old counter, holds exactly colour (rotated by counter times 45 degrees), a fresh budget and the name, passes `faction(entity)`, emits three `add-component` events in order, and the faction counter grows by one |
| `LegacyArchetypes.ConsecutiveFactions` | src/archetypes/faction.ts:23-34 | two factions created in a row get consecutive ids and colours 45 degrees apart |
| `LegacyArchetypes.FullPac` | src/archetypes/facilityModule.ts:12 | a partial recipe stands for the total one in which every commodity it leaves out is neither consumed nor produced |
| `LegacyArchetypes.ModuleBag` | src/archetypes/facilityModule.ts:20-33 | a module always has parent and name, production exactly when `pac` and `time` are both truthy, a storage bonus exactly when `storage` is truthy, and nothing else |
| `LegacyArchetypes.AddOptional` | src/archetypes/facilityModule.ts:24-30 | the optional stage changes only the new module's bag |
| `LegacyArchetypes.CreateFacilityModule` | src/archetypes/facilityModule.ts:20-33 | the module is appended under the old counter with the module bag, and earlier entities are untouched |
| `LegacyArchetypes.Instantiate` | src/archetypes/facilityModule.ts:35-150 | a table template creates the module for its input and the parent; the teleport template creates exactly parent, "Hyperspace Generator" and a teleport with no destination |
| `LegacyArchetypes.GoldUnsuppliedAsWritten` | src/archetypes/facilityModule.ts:105-135 | as written, electronics production consumes gold, yet gold is neither mined nor produced by any template, so the table is not supply-closed |
| `LegacyArchetypes.EveryCommoditySupplied` | src/archetypes/facilityModule.ts:42-139 | with the gold refinery producing gold, every commodity is mined or produced by some template |
| `LegacyArchetypes.CorrectedTableSupplyClosed` | src/archetypes/facilityModule.ts:42-139 | in the corrected table every input some template consumes has a source |
| `LegacyArchetypes.WaterModuleRecipe` | src/archetypes/facilityModule.ts:43-50 | the water template yields a 15-unit production recipe and no storage bonus |
| `LegacyArchetypes.WaterRecipePac` | src/archetypes/facilityModule.ts:45-48 | the water recipe consumes 20 ice and produces 10 water, and touches no other commodity |
| `LegacyArchetypes.ContainerSmallBonus` | src/archetypes/facilityModule.ts:136-139 | the small container gives a 4000 storage bonus and no production |
| `EntityModules.AddPacs` | src/utils/entityModules.ts:14-19 | for every commodity the summed recipe consumes and produces what both recipes do together |
| `EntityModules.AddFacilityModule` | src/utils/entityModules.ts:6-25 | the module id is appended to the facility's modules; a producing module gets a usable `production` cooldown and adds its recipe commodity by commodity; a storage bonus raises the capacity by the bonus; anything else is unchanged; a missing component read is a `TypeError` |
| `EntityModules.StepLine` | src/utils/entityModules.ts:12-20 | one attachment adds the module's recipe line to the facility's compound line for each commodity |
| `EntityModules.StepIds` | src/utils/entityModules.ts:10 | one attachment lists the module's id after the former ones |
| `EntityModules.StepCapacity` | src/utils/entityModules.ts:22-24 | one attachment raises the capacity by the module's bonus, zero when it has none |
| `EntityModules.ModulesListed` | src/utils/entityModules.ts:6-25 | attaching modules in turn lists all their ids after the former ones, in order |
| `EntityModules.RecipesAccumulate` | src/utils/entityModules.ts:12-20 | after attaching modules in turn, each compound line is the former line plus the sum of the modules' recipes |
| `EntityModules.BonusesAccumulate` | src/utils/entityModules.ts:22-24 | after attaching modules in turn, the capacity is the former one plus the sum of their bonuses |
| `Producing.LimitMax` | core/systems/producing.ts:37-41 | `limitMax` gives the smaller of value and cap, so the result is never above either |
| `Producing.ConsumePass` | core/systems/producing.ts:22-30 | the consumption pass keeps capacity, quota and the set of commodities |
| `Producing.ProducePass` | core/systems/producing.ts:31-46 | the production pass keeps capacity, quota and the set of commodities |
| `Producing.ConsumePassEffect` | core/systems/producing.ts:22-30 | the consumption pass lowers stored and available amounts of a commodity listed once by `floor(consumes·m)` when it consumes, and leaves an unlisted one alone |
| `Producing.ProducePassEffect` | core/systems/producing.ts:31-46 | the production pass raises a commodity listed once by `floor(min(quota − produces·m, produces·m))` when it produces, and leaves an unlisted one alone |
| `Producing.Produce` | core/systems/producing.ts:19-47 | `produce` keeps capacity and quota and leaves a record for every commodity |
| `Producing.PassesComputeProduce` | core/systems/producing.ts:19-47 | the two passes over a list naming every commodity once give the same storage as removing each commodity's consumption and adding its capped production, whatever the visiting order |
| `Producing.StoredMatches` | core/systems/producing.ts:19-47 | after both passes every stored amount equals the per-commodity formula |
| `Producing.WaresMatch` | core/systems/producing.ts:19-47 | after both passes every available amount equals the per-commodity formula |
| `Producing.PassesAt` | core/systems/producing.ts:19-47 | a commodity listed once loses its consumption and gains its capped production across both passes |
| `Producing.ProduceLeavesIdle` | core/systems/producing.ts:23-32 | a commodity the recipe neither consumes nor produces is untouched, and a consumed-only one loses exactly `floor(consumes·m)` |
| `Producing.ProduceCanExceedQuota` | core/systems/producing.ts:36-42 | the cap is measured from the quota rather than from what is stored, so a commodity already at its quota of 100 still rises to 110 |
| `Producing.EveryIff` | core/systems/producing.ts:57-68 | `every(test, list)` holds exactly when the test holds for each commodity in the list |
| `Producing.Ready` | core/systems/producing.ts:57-68 | a commodity that passes the test holds at least what `produce` will take of it, and one it produces is still below its quota |
| `Producing.IsAbleToProduce` | core/systems/producing.ts:49-69 | never while the `production` cooldown runs; otherwise exactly when every commodity's scaled consumption is available and every commodity with a non-zero scaled production is below its quota |
| `Producing.Step` | core/systems/producing.ts:88-107 | when the gate passes, the module's cooldown is set to a game day and the storage becomes the produced one; otherwise nothing changes |
| `Producing.Standalone` | core/systems/producing.ts:88-96 | a standalone producer without a recipe or a complete storage throws `TypeError`; otherwise it takes the cooldown `Step` gives it, its storage becomes the one `Step` produces, and the rest of it is kept |
| `Producing.StandaloneStep` | core/systems/producing.ts:88-96 | a missing id throws `MissingEntityError` and a missing recipe or storage `TypeError`; otherwise the listed entity becomes what `Standalone` makes of it and no other entity changes |
| `Producing.GateFailureSkips` | core/systems/producing.ts:89-91 | an entity that fails the gate is skipped and left exactly as it was |
| `Producing.FindStorageHolder` | core/systems/producing.ts:99 | the ancestor found holds a storage |
| `Producing.ModuleStep` | core/systems/producing.ts:98-108 | a missing module throws `MissingEntityError`, a failed ancestor walk passes its error on, and a module without a recipe or a holder without a complete storage throws `TypeError`; otherwise the set of entities is kept |
| `Producing.ModuleStepWrites` | core/systems/producing.ts:98-108 | the module takes the cooldown `Step` gives it, the storage holder's storage becomes the one `Step` produces (a module holding a storage is its own holder), and every other entity is left as it was |
| `Producing.RunStandalone` | core/systems/producing.ts:88-96 | the first loop keeps the set of entities |
| `Producing.RunStandaloneLeavesOthers` | core/systems/producing.ts:88-96 | an entity the first loop does not list is left as it was |
| `Producing.RunStandaloneStepsEach` | core/systems/producing.ts:88-96 | with no id listed twice, the first loop succeeds exactly when every listed entity exists and `Standalone` succeeds on it alone, and then leaves each listed entity as `Standalone` alone would |
| `Producing.StandaloneStepProducesOnly` | core/systems/producing.ts:88-96 | a standalone step changes no entity but in its storage, and starts at most the producer's own `production` cooldown |
| `Producing.RunStandaloneProducesOnly` | core/systems/producing.ts:88-96 | the first loop changes every entity only in its storage, and starts only the listed producers' `production` cooldowns |
| `Producing.RunModules` | core/systems/producing.ts:98-108 | the second loop keeps the set of entities |
| `Producing.ModuleStepProducesOnly` | core/systems/producing.ts:98-108 | a module step changes no entity but in its storage, and starts at most the module's own `production` cooldown |
| `Producing.RunModulesProducesOnly` | core/systems/producing.ts:98-108 | the second loop changes every entity only in its storage, and starts only the listed modules' `production` cooldowns |
| `Producing.Exec` | core/systems/producing.ts:85-111 | nothing while the `exec` cooldown runs; otherwise the tick succeeds exactly when the first loop does and the second loop does on its result, which is then the new store, with the set of entities kept and the cooldown set to a game day |
| `Producing.ExecProducesOnly` | core/systems/producing.ts:85-111 | a tick changes every entity only in its storage, and starts only the listed producers' and modules' `production` cooldowns |
| `Producing.UnregisterModules` | core/systems/producing.ts:75-81 | the cascade removes exactly the listed module ids and changes no surviving entity; it throws `MissingEntityError` for some listed id when it fails |
| `Producing.UnregisterModulesSucceeds` | core/systems/producing.ts:77-79 | with distinct registered module ids, the cascade never throws |
| `Producing.UnregisterWithModules` | core/systems/producing.ts:75-81 | unregistering a facility removes the facility and every one of its modules, and changes no entity that stays |
| `StorageQuota.Flat` | src/systems/storageQuotaPlanning.ts:17 | a commodity is in the flattened list exactly when it is in one of the blueprint cost lists |
| `StorageQuota.Uniq` | src/systems/storageQuotaPlanning.ts:18 | `uniq` keeps every element not yet seen, each once |
| `StorageQuota.Needed` | src/systems/storageQuotaPlanning.ts:14-20 | the needed commodities are exactly those in some blueprint's cost, without repeats |
| `StorageQuota.ShipyardQuota` | src/systems/storageQuotaPlanning.ts:10-27 | a commodity the shipyard does not need gets 0; a needed one gets the floor of capacity divided by the number needed |
| `StorageQuota.RuleOf` | src/systems/storageQuotaPlanning.ts:30-47 | compound production wins; otherwise a shipyard with an owner uses the owner's blueprints (a missing owner throws `MissingEntityError`); otherwise zero |
| `StorageQuota.ProductionShare` | src/systems/storageQuotaPlanning.ts:34-39 | with a non-negative capacity and no negative recipe entry, a commodity's share lies between 0 and the capacity |
| `StorageQuota.WriteQuotasEffect` | src/systems/storageQuotaPlanning.ts:32-48 | the `forEach` writes each listed commodity's quota by the rule and keeps the others |
| `StorageQuota.WriteQuotasKeys` | src/systems/storageQuotaPlanning.ts:32-48 | the pass adds exactly the listed commodities to the quota's keys |
| `StorageQuota.Settle` | src/systems/storageQuotaPlanning.ts:29-49 | settling fails exactly when the storage is missing or the rule cannot be read, and otherwise changes only the storage's quota |
| `StorageQuota.SettledQuota` | src/systems/storageQuotaPlanning.ts:32-48 | every commodity ends with the quota its rule gives |
| `StorageQuota.ProductionQuota` | src/systems/storageQuotaPlanning.ts:33-39 | with a compound production each quota is the floor of capacity times (produces + consumes) over the required storage, whether or not there is a shipyard |
| `StorageQuota.ShipyardQuotas` | src/systems/storageQuotaPlanning.ts:40-44 | a shipyard with an owner and no compound production gives each needed commodity the equal share and others 0 |
| `StorageQuota.ZeroQuotas` | src/systems/storageQuotaPlanning.ts:45-47 | with neither, every quota is 0 |
| `StorageQuota.SettleIdempotent` | src/systems/storageQuotaPlanning.ts:29-49 | settling a settled entity changes nothing |
| `StorageQuota.WithQuota` | src/systems/storageQuotaPlanning.ts:34 | writing a quota record changes only the storage's quota |
| `StorageQuota.WithOwnQuota` | src/systems/storageQuotaPlanning.ts:34 | writing back the quota an entity already has gives the entity back |
| `StorageQuota.RuleOfIgnoresStorage` | src/systems/storageQuotaPlanning.ts:30-40 | the rule does not depend on the storage record |
| `StorageQuota.WriteAllForgetsInput` | src/systems/storageQuotaPlanning.ts:32-48 | a pass over every commodity gives the same record whatever record it starts from |
| `StorageQuota.WriteCoverForgetsInput` | src/systems/storageQuotaPlanning.ts:32-48 | a pass over a list naming every commodity forgets the record it starts from |
| `StorageQuota.ShipyardSumIsShare` | src/systems/storageQuotaPlanning.ts:22-26 | the shipyard quotas over a list sum to the count of needed members times the equal share |
| `StorageQuota.CountIsOccurrences` | src/systems/storageQuotaPlanning.ts:22 | for distinct needed commodities, counting needed members of a list is summing the occurrences of each needed one |
| `StorageQuota.ShipyardQuotasFit` | src/systems/storageQuotaPlanning.ts:10-27 | summed over all commodities, a shipyard's quotas never exceed the storage capacity |
| `StorageQuota.SettleAll` | src/systems/storageQuotaPlanning.ts:64 | settling the query's entities in turn keeps the set of entities |
| `StorageQuota.SettleAllLeavesOthers` | src/systems/storageQuotaPlanning.ts:64 | an entity not in the query is left as it was |
| `StorageQuota.SettleAllSettlesEach` | src/systems/storageQuotaPlanning.ts:64 | with no id listed twice, the pass succeeds exactly when every listed entity exists and settles on its own, and then leaves each listed entity as settling it alone would |
| `StorageQuota.Exec` | src/systems/storageQuotaPlanning.ts:59-66 | the cooldown counts down by delta; when it has run out it restarts at 20 before the pass, so a throwing pass still spends it, and the outcome is the settling pass's; otherwise nothing changes |
| `StorageQuota.SettleAtMostOncePerCooldown` | src/systems/storageQuotaPlanning.ts:59-66 | after a tick that ran the settling pass, whether the pass threw or not, a tick with a delta below 20 settles nothing |
| `Pricing.Limit` | core/systems/trading.ts:140-149 | a NaN value stays NaN; a non-NaN value clamped into a finite non-empty range lands inside it, and a value already inside is kept |
| `Pricing.LimitMonotone` | core/systems/trading.ts:140-149 | clamping both ends of a belief keeps their order |
| `Pricing.Settle` | core/systems/trading.ts:140-158 | the lower end is the clamped one; a finite belief settled into a finite non-empty range is finite, has its lower end in the range, and never has equal ends |
| `Pricing.SettleOrdered` | core/systems/trading.ts:140-158 | an ordered belief settles into a proper interval with its lower end in [min, max]; the upper end exceeds the cap only when a collapsed interval was widened to `max(1.02 x, x + 2)` |
| `Pricing.SettleKeepsNaN` | core/systems/trading.ts:140-149 | a belief with a NaN lower end keeps it after settling |
| `Pricing.RandomInt` | core/systems/trading.ts:160 | a finite draw is a whole number, and a belief with a NaN end draws NaN |
| `Pricing.RandomIntInRange` | core/systems/trading.ts:160 | the drawn price of a proper finite interval is a whole number from the floor of the lower end up to, but not including, the upper end |
| `Pricing.SellShifted` | core/systems/trading.ts:114-138 | every sell-side move shifts both ends by one amount, so a finite outcome of a finite belief keeps its width |
| `Pricing.SellShiftDirection` | core/systems/trading.ts:114-138 | for a non-negative weight and mean, no sale or a sale at or above the average lowers both ends, and a sale below the average raises them |
| `Pricing.BuyAfterSaleKeepsOrder` | core/systems/trading.ts:181-190 | after a sale the buy-side move keeps a finite ordered belief ordered; it either keeps the mean (narrowing) or raises the upper end by a tenth |
| `Pricing.NarrowStaysOrdered` | core/systems/trading.ts:182-186 | narrowing by a tenth of a non-negative mean when `high / mean > 1.1` keeps the ends ordered and the mean in place |
| `Pricing.NegativeMeanCapsRatio` | core/systems/trading.ts:182 | with a negative mean, `high / mean` is at most 1, so the narrowing branch is not taken |
| `Pricing.BuyShifted` | core/systems/trading.ts:191-213 | without a sale, a finite belief with finite prices stays finite and keeps its width, since every such move shifts both ends by one amount |
| `Pricing.BuyLowStockRaises` | core/systems/trading.ts:191-195 | with storage under a quarter full and no sale, the buy belief never drops |
| `Trading.MinPrice` | core/systems/trading.ts:107-112 | the sell-side floor is the production cost for an entity with compound production (a missing `modules` throws `MissingComponentError`), else `minPrice` |
| `Trading.TradedQuantity` | core/systems/trading.ts:242-255 | the summed quantity is 0 when no journal entry counts, and never negative when no trade records a negative quantity |
| `Trading.AdjustSell` | core/systems/trading.ts:84-161 | a missing offer is a `TypeError`; an inactive offer keeps its price and belief; an active one succeeds exactly when the floor can be computed |
| `Trading.AdjustBuy` | core/systems/trading.ts:163-237 | fails with `TypeError` exactly when the offer is missing; an inactive offer keeps its price and belief |
| `Trading.SellShiftFinite` | core/systems/trading.ts:114-138 | with finite inputs every sell-side move is finite |
| `Trading.SellAdjustBounds` | core/systems/trading.ts:84-161 | an active sell offer with finite inputs gets a proper belief whose lower end lies between the production-cost floor and the cap, and a whole price inside it |
| `Trading.BuyAdjustBounds` | core/systems/trading.ts:163-237 | an active buy offer with finite inputs gets a proper belief whose lower end lies between `minPrice` and the cap, and a whole price inside it |
| `Trading.Step` | core/systems/trading.ts:257-262 | the adjuster is chosen by offer type, and an inactive offer keeps its price and belief |
| `Trading.Record` | core/systems/trading.ts:258-261 | writing one commodity's adjustment changes that offer's price and belief and no other commodity |
| `Trading.AdjustEach` | core/systems/trading.ts:257-262 | the `forEach` pass leaves offers and beliefs total and the last adjustment as it was |
| `Trading.AdjustEachKeepsTerms` | core/systems/trading.ts:257-262 | the pass changes only offer prices: activity, quantity and type are kept |
| `Trading.AdjustEachSkips` | core/systems/trading.ts:86-165 | an inactive offer, or a commodity not visited, keeps its offer and belief |
| `Trading.AdjustEachTyped` | core/systems/trading.ts:257-262 | with an offer for every commodity the pass never throws a `TypeError` |
| `Trading.MinPriceTyped` | core/systems/trading.ts:107-112 | with an offer for every commodity the floor never throws a `TypeError` |
| `Trading.CostTyped` | core/systems/trading.ts:28-54 | with an offer for every commodity and total recipes the production cost never throws a `TypeError` |
| `Trading.InputCostTyped` | core/systems/trading.ts:41-53 | the input-cost sum never throws a `TypeError` under the same conditions |
| `Trading.TradedQuantities` | core/systems/trading.ts:242-255 | each commodity's recorded quantity is the sum of the counted journal entries |
| `Trading.AdjustTrade` | core/systems/trading.ts:239-268 | missing offers make it throw `TypeError`; otherwise the offers and beliefs stay total and the last adjustment records the time and the traded quantities |
| `Trading.AdjustTradeKeepsOffers` | core/systems/trading.ts:239-268 | an adjustment keeps every offer's activity, quantity and type, and leaves an inactive offer's price and belief untouched |
| `Trading.AdjustPrices` | core/systems/trading.ts:239-268 | a deployable entity is left alone; otherwise only its trade component changes, to the adjusted trade state |
| `Trading.MultiplierRange` | core/systems/trading.ts:285-286 | with a non-negative balance the budget multiplier lies in [0, 1] |
| `Trading.ShortfallWithinRoom` | core/systems/trading.ts:289-291 | with a multiplier in [0, 1] the shortfall is a whole number between `stored − quota` and 0, or 0 when stock exceeds quota |
| `Trading.Offered` | core/systems/trading.ts:280-323 | no production offers all stock, a surplus offers stock less twice the consumption, and a shipyard or a deficit offers the scaled shortfall; a recipe that consumes as much as it produces offers all stock when both are 0 and the scaled shortfall otherwise |
| `Trading.OfferedWithinRoom` | core/systems/trading.ts:280-323 | a buyer with a non-negative balance never asks for more than the room under its quota |
| `Trading.OfferedQuantity` | core/systems/trading.ts:280-323 | `getOfferedQuantity` throws `MissingComponentError` exactly when it reaches the production branch without all seven production parts, and otherwise returns the offered quantity |
| `Trading.NewOffer` | core/systems/trading.ts:328-342 | the offer is active unless nothing is offered and nothing is produced net, carries the absolute quantity, sells exactly when in surplus, and keeps the old price (100 when there were no offers) |
| `Trading.OfferTrade` | core/systems/trading.ts:325-344 | fails exactly on missing production parts or a partial offer record; otherwise each commodity gets its new offer and beliefs and the last adjustment are kept |
| `Trading.OfferTradeIdempotent` | core/systems/trading.ts:325-344 | creating offers again from the offers just created recreates them |
| `Trading.CreateOffers` | core/systems/trading.ts:325-344 | a deployable entity is left alone; otherwise only its trade component changes |
| `Trading.CreateOffersIdempotent` | core/systems/trading.ts:325-344 | creating offers twice in a row gives what creating them once gave |
| `Trading.AdjustPricesTyped` | core/systems/trading.ts:239-268 | an entity with an offer for every commodity adjusts its prices without a `TypeError` |
| `Trading.OffersMakeAdjustmentTyped` | core/systems/trading.ts:325-365 | offers just created make the next price adjustment free of `TypeError` |
| `Trading.AdjustAll` | core/systems/trading.ts:365 | the adjusting pass keeps the set of entities |
| `Trading.OfferAll` | core/systems/trading.ts:370 | the offering pass keeps the set of entities |
| `Trading.AdjustAllKeepsTraders` | core/systems/trading.ts:365 | after the adjusting pass every trader is still one and the module recipes are intact |
| `Trading.AdjustAllLeavesOthers` | core/systems/trading.ts:365 | an entity the adjusting pass does not list is left as it was |
| `Trading.OfferAllLeavesOthers` | core/systems/trading.ts:370 | an entity the offering pass does not list is left as it was |
| `Trading.AdjustAllAdjustsEach` | core/systems/trading.ts:365 | with no trader listed twice, the adjusting pass succeeds exactly when adjusting each listed trader on its own would, and then leaves each one as adjusting it alone would |
| `Trading.OfferAllOffersEach` | core/systems/trading.ts:370 | with no trader listed twice, the offering pass succeeds exactly when each listed trader makes its offers on its own, and then leaves each one as making its offers alone would |
| `Trading.MinPriceSameRecipes` | core/systems/trading.ts:107-112 | the sell-side floor reads the store only through the module recipes: stores with the same recipes give the same floor |
| `Trading.AdjustEachSameRecipes` | core/systems/trading.ts:257-262 | the price revision of every commodity reads the store only through the module recipes |
| `Trading.AdjustPricesSameRecipes` | core/systems/trading.ts:239-268 | `adjustPrices` on a trader reads the store only through the module recipes |
| `Trading.OfferPhase` | core/systems/trading.ts:368-371 | offers are recreated exactly when the `createOffers` cooldown has run out; it restarts at 1 before the pass, so a throwing pass still spends it, and the outcome is the offering pass's |
| `Trading.Exec` | core/systems/trading.ts:360-372 | with both cooldowns running nothing changes; an adjusting pass restarts its cooldown at 900 even when it throws, and a throw ends the tick before the offers; with only offers due the outcome is the offering pass's, which restarts its cooldown at 1; a successful tick keeps the set of entities |
| `Trading.FirstTickRunsBoth` | core/systems/trading.ts:353-361 | on the first tick both passes run |
| `Trading.AdjustAtMostOncePerCooldown` | core/systems/trading.ts:360-372 | after a tick with both passes due, prices are adjusted again exactly once 900 units pass, whether the adjusting pass threw or not, and, when it went through, offers are recreated on any tick of at least one unit |
| `ProductionCost.Resolve` | core/systems/trading.ts:32-33 | every module id resolves to its entity, in order, or `getOrThrow` throws `MissingEntityError` for a listed id that has no entity |
| `ProductionCost.FirstProducer` | core/systems/trading.ts:34 | `find` returns the first module whose recipe produces the commodity, or none when no module does |
| `ProductionCost.Cost` | core/systems/trading.ts:28-54 | a commodity with a producer costs a whole number (the ceiling of its input costs); no fuel left stands for the unbounded recursion |
| `ProductionCost.InputCost` | core/systems/trading.ts:42-52 | the sum over no inputs is 0 |
| `ProductionCost.InputTerm` | core/systems/trading.ts:44-49 | an input the recipe does not consume adds 0 |
| `ProductionCost.UnproducedCostsOfferPrice` | core/systems/trading.ts:37-39 | a commodity no module produces costs exactly its offer price, and a missing offer throws |
| `ProductionCost.CostFuelStable` | core/systems/trading.ts:28-54 | more fuel never changes an answer that did not run out: the fuel bound only cuts off non-terminating recursion |
| `ProductionCost.InputCostFuelStable` | core/systems/trading.ts:42-52 | the same for the input-cost sum |
| `ProductionCost.RankedCostTerminates` | core/systems/trading.ts:28-54 | on an acyclic recipe graph, fuel above a commodity's rank suffices, so the recursion terminates |
| `ProductionCost.FuelFailureFromInputs` | core/systems/trading.ts:41-53 | a produced commodity runs out of fuel only when its inputs do |
| `ProductionCost.InputsRankLower` | core/systems/trading.ts:44-48 | on a ranked graph every input of the first producer ranks below the output |
| `ProductionCost.RankedInputsTerminate` | core/systems/trading.ts:42-52 | on a ranked graph the input sum never runs out of fuel |
| `ProductionCost.SelfConsumingNeverCosts` | core/systems/trading.ts:28-54 | a commodity whose first producer also consumes it never gets a cost: the source's recursion does not return |
| `ProductionCost.FailingInputFails` | core/systems/trading.ts:42-52 | one failing input makes the whole sum fail |
| `ProductionCost.FirstProducerSameRecipes` | core/systems/trading.ts:34 | the first producer is found from the module recipes alone |
| `ProductionCost.CostSameRecipes` | core/systems/trading.ts:28-54 | a commodity's cost, or its failure, depends on the modules only through their recipes |
| `ProductionCost.InputCostSameRecipes` | core/systems/trading.ts:42-52 | the same for the summed input cost |
| `ProductionCost.ResolveSameRecipes` | core/systems/trading.ts:32-33 | resolving the same module ids in two stores that agree on every entity's recipe fails alike, or gives modules with the same recipes |
| `Mining.Acquire` | core/systems/orderExecuting/mine.ts:20-35 | re-targeting points the order at the field's mineable rock, else at a spawned one, and puts one move in front of the head order's actions; a miner with no order throws `TypeError` |
| `Mining.Arrive` | core/systems/orderExecuting/mine.ts:37-49 | on arrival the rock is reserved for the miner and becomes its mining target; with no room left both are cleared and the order is done; no other rock changes |
| `Mining.MineAction` | core/systems/orderExecuting/mine.ts:9-52 | a missing field throws `MissingEntityError`; an exhausted field ends the order untouched; a kept target leaves the order and queue alone; otherwise it fails exactly when there is no order to prepend the move to |
| `Mining.ReservationsExclusive` | core/systems/orderExecuting/mine.ts:20-40 | a rock reserved by another entity keeps its reservation |
| `Mining.ReservationsOwnOrCleared` | core/systems/orderExecuting/mine.ts:40-45 | a reservation is only ever set to the miner's own id or cleared |
| `Mining.DoneIff` | core/systems/orderExecuting/mine.ts:26-51 | the order is done exactly when the field is exhausted, or the miner has arrived with a full hold |
| `Mining.ArrivalReserves` | core/systems/orderExecuting/mine.ts:37-49 | after an unfinished step at the target, the miner mines the order's rock and holds its reservation |
| `Mining.RockZeroIsDropped` | core/systems/orderExecuting/mine.ts:16-18 | a target rock with id 0 is treated as no target, so the miner re-targets even when the rock is its own |
| `Mining.StaleArrivalReservesNewRock` | core/systems/orderExecuting/mine.ts:20-40 | re-targeting and arrival happen in one step: a miner still flagged as arrived reserves the newly chosen rock before the new move has run |
| `DeployFacility.ShipPartsAsSet` | core/systems/orderExecuting/deployFacility.ts:20-33 | the removal list names exactly the ten ship parts |
| `DeployFacility.FacilityLook` | core/systems/orderExecuting/deployFacility.ts:10-18 | the facility look keeps the ship's colour and layer, takes the "fFactory" texture and drops the live sprite |
| `DeployFacility.DeployedKeys` | core/systems/orderExecuting/deployFacility.ts:20-51 | after deployment the components are the old ones less the ship parts, plus the kit and the position |
| `DeployFacility.DeployedKit` | core/systems/orderExecuting/deployFacility.ts:35-49 | the kit is fresh: empty budget, docks 1/3/3, no modules, the name "Facility", empty storage, fresh trade, an empty journal and the facility look |
| `DeployFacility.DeployedKeepsTheRest` | core/systems/orderExecuting/deployFacility.ts:20-51 | only the position's angle changes (to 0), and every component that is neither a ship part nor in the kit is kept |
| `DeployFacility.DeployedIdempotent` | core/systems/orderExecuting/deployFacility.ts:9-54 | deploying a deployed bag again changes nothing |
| `DeployFacility.DeployHooks` | core/systems/orderExecuting/deployFacility.ts:20-49 | one hook per removed part and per added kit component |
| `DeployFacility.DeployFacilityAction` | core/systems/orderExecuting/deployFacility.ts:9-54 | the action reports done and fires the removal then addition hooks; only components change; a ship without render or position throws `TypeError` |
| `DeployFacility.DeployIdempotent` | core/systems/orderExecuting/deployFacility.ts:9-54 | running the action again on a deployed facility gives the same entity |
| `DeployFacility.DeployedFacilityNeedsQueue` | core/systems/orderExecuting/deployFacility.ts:35-49 | the deployed entity passes `facility(entity)` exactly when the ship already had a module queue |
| `DeployFacility.DeployedTrades` | core/systems/orderExecuting/deployFacility.ts:20-49 | the deployed entity is no longer deployable and has every part trading reads |
| `ShipReturning.Owned` | core/systems/ai/shipReturning.ts:32-41 | exactly the sectors the owner holds, in query order |
| `ShipReturning.Stranded` | core/systems/ai/shipReturning.ts:26-36 | a craft qualifies exactly when it is idle, its owner is not the player, and it is outside its owner's sectors; an idle craft whose owner is missing throws |
| `ShipReturning.Distances` | core/systems/ai/shipReturning.ts:43-50 | the distance to each owned sector is read from the path table, and a missing entry throws `TypeError` |
| `ShipReturning.FirstNearest` | core/systems/ai/shipReturning.ts:43-52 | the stable sort puts first the earliest of the smallest distances |
| `ShipReturning.FirstNearestUnique` | core/systems/ai/shipReturning.ts:43-52 | the earliest of the smallest distances is the only such position |
| `ShipReturning.Destination` | core/systems/ai/shipReturning.ts:39-52 | the destination is an owned sector no farther than any other, the earliest such in query order; none exactly when the owner holds no sector |
| `ShipReturning.ReturnCraft` | core/systems/ai/shipReturning.ts:26-68 | a craft changes exactly when it is stranded and has a destination, and then gains one automatic move order at the end of its queue |
| `ShipReturning.ReturnAll` | core/systems/ai/shipReturning.ts:23-69 | the pass succeeds exactly when every craft's step does, and then returns each craft's result in order |
| `ShipReturning.Exec` | core/systems/ai/shipReturning.ts:18-72 | nothing while the cooldown runs; otherwise the cooldown restarts at 3 before the pass, so a throwing pass still spends it, the outcome is the pass's, and a successful pass changes only the crafts |
| `ShipReturning.ReturnSettles` | core/systems/ai/shipReturning.ts:23-69 | a second pass over the result changes nothing |
| `ShipReturning.ReturnAllUnchanged` | core/systems/ai/shipReturning.ts:23-69 | a pass in which every craft comes out as it went in returns the crafts unchanged |
| `ShipReturning.ReturnAtMostOncePerCooldown` | core/systems/ai/shipReturning.ts:18-72 | right after a tick that ran the pass, whether it threw or not, the next tick runs one exactly when three units have passed |
| `FacilityPlanning.MineableOutputBlocks` | core/systems/ai/facilityPlanning.ts:37-39 | a recipe with a minable output is never buildable |
| `FacilityPlanning.RatioTest` | core/systems/ai/facilityPlanning.ts:40-42 | an input passes exactly when production over usage-including-this-module exceeds the stockpiling ratio, where a zero usage passes on any positive production (JavaScript's division by zero gives infinity) |
| `FacilityPlanning.IsAbleToBuild` | core/systems/ai/facilityPlanning.ts:31-44 | in plain arithmetic, a recipe is buildable exactly when no output is minable and every input's production over its usage including this module exceeds the stockpiling ratio, a zero usage passing on any positive production |
| `FacilityPlanning.UnproducedInputBlocks` | core/systems/ai/facilityPlanning.ts:31-44 | with a non-negative stockpiling ratio, an input nothing produces blocks the recipe |
| `FacilityPlanning.FirstBuildable` | core/systems/ai/facilityPlanning.ts:213-222 | the pick is a buildable production module with no buildable one before it; none exactly when no module is buildable |
| `FacilityPlanning.AccumulateIsForEach` | core/systems/ai/facilityPlanning.ts:225-235 | adding the picked recipe over every commodity gives the totals plus the module's consumption and production |
| `FacilityPlanning.AddOverEffect` | core/systems/ai/facilityPlanning.ts:225-235 | over a list without repeats, each listed commodity gains its amount once and the others stay |
| `FacilityPlanning.TotalsAfterSums` | core/systems/ai/facilityPlanning.ts:224-235 | the totals after a pick list are the starting totals plus the summed consumption and production of the picks |
| `FacilityPlanning.Greedy` | core/systems/ai/facilityPlanning.ts:212-236 | the picked modules all have recipes; the pass fails only by running out of its fuel bound |
| `FacilityPlanning.GreedyStops` | core/systems/ai/facilityPlanning.ts:212-236 | when the pass ends, its totals are those of the picks and no blueprint is buildable against them |
| `FacilityPlanning.GreedyFollowsTrace` | core/systems/ai/facilityPlanning.ts:212-236 | the picks are the greedy trace: each one is the first module buildable against the totals so far, and nothing is buildable after the last |
| `FacilityPlanning.GreedyTraceUnique` | core/systems/ai/facilityPlanning.ts:212-236 | the greedy trace is determined by the blueprints and the starting totals |
| `FacilityPlanning.TraceWithinFuel` | core/systems/ai/facilityPlanning.ts:212-236 | with fuel beyond the trace's length the pass succeeds with exactly that trace |
| `FacilityPlanning.GreedyAccounts` | core/systems/ai/facilityPlanning.ts:224-235 | the faction's final usage and production are the starting ones plus what the picked modules consume and produce |
| `FacilityPlanning.Paired` | core/systems/ai/facilityPlanning.ts:277-283 | every production module is preceded by a small container |
| `FacilityPlanning.FactoryModules` | core/systems/ai/facilityPlanning.ts:270-283 | a factory has a defense and a container-and-module pair per production module |
| `FacilityPlanning.ModuleCount` | core/systems/ai/facilityPlanning.ts:245 | the module count the split test reads is the length of the factory's module list |
| `FacilityPlanning.PackFrom` | core/systems/ai/facilityPlanning.ts:241-284 | the loop throws exactly when a module is left to place and the faction owns no sector |
| `FacilityPlanning.PackFromStep` | core/systems/ai/facilityPlanning.ts:241-284 | one turn closes the open factory when a new one begins (stocked at time 0), then places the popped module in the factory now open |
| `FacilityPlanning.PackFromPlaced` | core/systems/ai/facilityPlanning.ts:241-284 | the factories, in order, hold the open factory's modules and then the popped ones, in pop order |
| `FacilityPlanning.PackFromShape` | core/systems/ai/facilityPlanning.ts:242-283 | every factory holds one to three production modules and stands in an owned sector |
| `FacilityPlanning.PackFromNonEmpty` | core/systems/ai/facilityPlanning.ts:241-284 | the loop yields no factory exactly when nothing is open and nothing is queued |
| `FacilityPlanning.PackFromStocked` | core/systems/ai/facilityPlanning.ts:247-249 | every factory but the last is stocked exactly when the game is at time 0; the last as the end of the loop says |
| `FacilityPlanning.PackAsWrittenStocks` | core/systems/ai/facilityPlanning.ts:241-284 | as written, every factory but the last is stocked exactly when the game is at time 0, and the last never is |
| `FacilityPlanning.Reverse` | core/systems/ai/facilityPlanning.ts:277 | `pop()` empties the queue from its end: the pop order is the queue reversed, with the same modules |
| `FacilityPlanning.PackAsWritten` | core/systems/ai/facilityPlanning.ts:238-284 | the packing as written fails exactly when a module is queued and no sector is owned |
| `FacilityPlanning.LastFactoryUnstocked` | core/systems/ai/facilityPlanning.ts:238-284 | as written, at time 0 a single picked module gives a single factory that gets no starting commodities |
| `FacilityPlanning.Pack` | core/systems/ai/facilityPlanning.ts:238-284 | the corrected packing, which the plan does not use, fails with `TypeError` exactly when a module is queued and no sector is owned |
| `FacilityPlanning.PackStocksEveryFactory` | core/systems/ai/facilityPlanning.ts:247-249 | with the stocking corrected, every factory is stocked exactly when the game is at time 0 |
| `FacilityPlanning.FactoriesHoldAtMostThree` | core/systems/ai/facilityPlanning.ts:242-283 | as written, each factory holds one to three production modules, so at most seven modules, and stands in an owned sector |
| `FacilityPlanning.PackPlacesEveryModule` | core/systems/ai/facilityPlanning.ts:240-284 | as written, every queued module is placed exactly once, in pop order |
| `FacilityPlanning.Extractor` | core/systems/ai/facilityPlanning.ts:105-107 | the extractor is the first production blueprint that consumes the commodity; none exactly when no blueprint does |
| `FacilityPlanning.Pairs` | core/systems/ai/facilityPlanning.ts:126-139 | at most eight container-and-module pairs |
| `FacilityPlanning.PairsClosedForm` | core/systems/ai/facilityPlanning.ts:126-133 | the pair count is the ratio rounded up, between 0 and 8 |
| `FacilityPlanning.PairsCoverRatio` | core/systems/ai/facilityPlanning.ts:126-133 | the pairs cover the ratio with nothing to spare, unless capped at 8 |
| `FacilityPlanning.MiningModules` | core/systems/ai/facilityPlanning.ts:126-144 | a medium container before each extractor, then one small defense |
| `FacilityPlanning.MiningPlansOverSound` | core/systems/ai/facilityPlanning.ts:104-146 | every complex planned is for a listed commodity that can be mined, built from its extractor |
| `FacilityPlanning.MiningPlansOverComplete` | core/systems/ai/facilityPlanning.ts:104-146 | every listed commodity that can be mined gets a complex |
| `FacilityPlanning.MiningPlansOverDistinct` | core/systems/ai/facilityPlanning.ts:104-146 | over distinct commodities no commodity gets two complexes |
| `FacilityPlanning.PlanMining` | core/systems/ai/facilityPlanning.ts:90-147 | a sector gets at most one complex per commodity, each standing in the sector, for a commodity that can be mined there and built from its extractor |
| `FacilityPlanning.MiningComplexPerCommodity` | core/systems/ai/facilityPlanning.ts:90-147 | each owned sector gets one mining complex per commodity that can be mined there and none other: the sector holds some, the faction uses none there, and a blueprint extracts it |
| `FacilityPlanning.MiningComplexShape` | core/systems/ai/facilityPlanning.ts:105-139 | the complex is built from the first extracting blueprint, has at most 17 modules, and its pairs cover the resource's ratio unless capped |
| `FacilityPlanning.StockOverEffect` | core/systems/ai/facilityPlanning.ts:48-56 | over distinct commodities, each listed commodity with a truthy quota gains its starting amount on hand and on offer; the others stay |
| `FacilityPlanning.StartingAmount` | core/systems/ai/facilityPlanning.ts:53 | a zero quota gives nothing, and a non-negative quota with a draw in [0, 1] gives between 0 and the quota |
| `FacilityPlanning.StockOver` | core/systems/ai/facilityPlanning.ts:48-56 | the loop keeps every per-commodity record complete and keeps the capacity and the quotas |
| `FacilityPlanning.StartingCommodities` | core/systems/ai/facilityPlanning.ts:46-57 | starting commodities keep the capacity and the quotas |
| `FacilityPlanning.StartingStock` | core/systems/ai/facilityPlanning.ts:46-57 | every commodity gains the floor of its quota times the draw, and nothing when its quota is 0 |
| `FacilityPlanning.StartingWithinQuota` | core/systems/ai/facilityPlanning.ts:53 | with a draw in [0.4, 0.7) a positive quota gives a starting amount below the quota and above 40% of it less one |
| `FacilityPlanning.NewFacilityStocksBelowQuota` | core/systems/ai/facilityPlanning.ts:46-57 | an empty facility is stocked below each positive quota, and not at all where the quota is 0 |
| `FacilityPlanning.PlanHabitats` | core/systems/ai/facilityPlanning.ts:149-192 | one habitat per owned sector: the i-th stands in the i-th owned sector and has a second defense exactly when its draw is below 0.2 |
| `FacilityPlanning.HabitatModuleCounts` | core/systems/ai/facilityPlanning.ts:171-190 | a habitat has one habitat module, one small container, and one or two small defenses |
| `FacilityPlanning.ProductionOnly` | core/systems/ai/facilityPlanning.ts:207-209 | exactly the faction's production blueprints |
| `FacilityPlanning.PlanFactories` | core/systems/ai/facilityPlanning.ts:194-284 | the factory pass, with the packing as written, throws exactly when the greedy pass runs out of fuel or the shuffled queue is non-empty and no sector is owned |
| `FacilityPlanning.FactoriesHoldThePicks` | core/systems/ai/facilityPlanning.ts:194-284 | the factories hold exactly the greedily picked modules, each once, in owned sectors |
| `FacilityPlanning.FactoriesNeedASector` | core/systems/ai/facilityPlanning.ts:194-284 | the factory pass throws only when the greedy pass runs out of fuel, or it picked something and no sector is owned |
| `FacilityPlanning.MiningForSectorsFrom` | core/systems/ai/facilityPlanning.ts:307-313 | every mining complex stands in an owned sector where its commodity can be mined |
| `FacilityPlanning.PlanFaction` | core/systems/ai/facilityPlanning.ts:307-317 | a faction's plan fails exactly when its factory pass does, with the same error; otherwise it belongs to the faction and has one habitat per owned sector |
| `FacilityPlanning.PlanAll` | core/systems/ai/facilityPlanning.ts:307-317 | the pass over the computer factions succeeds exactly when every faction's plan does, and then holds each plan in order; a failure carries the error of some faction's plan |
| `FacilityPlanning.Exec` | core/systems/ai/facilityPlanning.ts:302-319 | nothing is planned unless the cooldown is ready and the game time is 0; then the cooldown restarts at 500 before the factions are planned, so a throwing pass still spends it, and the outcome is the pass's |
| `FacilityPlanning.PlansOnceAtStart` | core/systems/ai/facilityPlanning.ts:302-305 | planning happens only at time 0, and after a planning tick, whether it threw or not, again only after 500 time units with the clock still at 0 |
| `FacilityPlanning.PlanFactionPlacement` | core/systems/ai/facilityPlanning.ts:307-317 | a faction's plan has one habitat per owned sector in order and its complexes and factories in owned sectors; every factory but the last is stocked exactly at time 0, the last never |
| `FacilityPlanning.ExecPlansStockedAndOwned` | core/systems/ai/facilityPlanning.ts:302-319 | a plan made by `exec` belongs to its faction, puts everything in the faction's own sectors, and stocks every factory but the last |
| `LegacyFacilityPlanning.CreatableEntries` | src/systems/facilityPlanning.ts:105-114 | read through the templates' records, the small container and the habitat can be created; as written no table entry has a `create`, so nothing can |
| `LegacyFacilityPlanning.TableTimed` | src/systems/facilityPlanning.ts:70-73 | every module with a recipe in the table has a non-zero cycle time, either way the table is read |
| `LegacyFacilityPlanning.Miner` | src/systems/facilityPlanning.ts:65-67 | the miner is the first table entry whose recipe consumes the commodity; none exactly when no entry does |
| `LegacyFacilityPlanning.MiningRatio` | src/systems/facilityPlanning.ts:70-73 | the loop bound is the resource's maximum over ten thousand cycles' consumption per unit of time, and NaN when the time is absent |
| `LegacyFacilityPlanning.CountFromStops` | src/systems/facilityPlanning.ts:68-81 | the loop from `i` on stops at the first count reaching the ratio |
| `LegacyFacilityPlanning.IterationsClosedForm` | src/systems/facilityPlanning.ts:68-81 | the number of pairs is the positive ratio rounded up, and 0 for a NaN or non-positive bound |
| `LegacyFacilityPlanning.MiningModules` | src/systems/facilityPlanning.ts:68-81 | a small container before each mining module, and nothing else |
| `LegacyFacilityPlanning.MiningPlansOver` | src/systems/facilityPlanning.ts:44-82 | the pass over the listed commodities throws `TypeError` exactly when one of them can be mined and either no entry mines it, or pairs are needed and the small container or the miner has no `create` |
| `LegacyFacilityPlanning.PlanMining` | src/systems/facilityPlanning.ts:29-83 | a sector's mining pass throws `TypeError` exactly when some commodity can be mined there and either no entry mines it, or pairs are needed and the small container or the miner has no `create` |
| `LegacyFacilityPlanning.MiningPlansOverSound` | src/systems/facilityPlanning.ts:44-82 | every complex planned is for a listed commodity that can be mined, built from its miner |
| `LegacyFacilityPlanning.MiningPlansOverComplete` | src/systems/facilityPlanning.ts:44-82 | every listed commodity that can be mined gets a complex |
| `LegacyFacilityPlanning.MiningPlansOverDistinct` | src/systems/facilityPlanning.ts:44-82 | over distinct commodities no commodity gets two complexes |
| `LegacyFacilityPlanning.MiningComplexPerCommodity` | src/systems/facilityPlanning.ts:29-83 | when the pass succeeds, the sector gets one complex per commodity it holds and the faction does not yet use there, and none other |
| `LegacyFacilityPlanning.MiningThrowsAsWritten` | src/systems/facilityPlanning.ts:65-73 | as written, a sector with any commodity that can be mined makes the pass throw, since no closure has a recipe |
| `LegacyFacilityPlanning.MiningAsWritten` | src/systems/facilityPlanning.ts:65-80 | as written, a sector's mining pass throws exactly when the sector holds a commodity that can be mined |
| `LegacyFacilityPlanning.EveryOreHasAMiner` | src/systems/facilityPlanning.ts:65-67 | read through the templates' records, every minable commodity has a miner in the table |
| `LegacyFacilityPlanning.MiningSucceedsOnOres` | src/systems/facilityPlanning.ts:29-83 | read through the records, a sector holding only minable commodities is planned without throwing |
| `LegacyFacilityPlanning.Candidates` | src/systems/facilityPlanning.ts:128-130 | the candidates are the table entries other than the habitat |
| `LegacyFacilityPlanning.RatioTest` | src/systems/facilityPlanning.ts:137-147 | an input passes exactly when its usage per unit of time (this module's included) over the production is below the stockpiling ratio, a zero production passing only on negative usage |
| `LegacyFacilityPlanning.UnproducedInputBlocks` | src/systems/facilityPlanning.ts:137-147 | with non-negative usage, an input nothing produces blocks the module |
| `LegacyFacilityPlanning.Accumulate` | src/systems/facilityPlanning.ts:151-161 | picking a module adds its consumption and production per unit of cycle time to the totals |
| `LegacyFacilityPlanning.Greedy` | src/systems/facilityPlanning.ts:133-162 | the pass fails only by running out of its fuel bound |
| `LegacyFacilityPlanning.GreedyStops` | src/systems/facilityPlanning.ts:133-162 | the picks are candidates with recipes, the first is buildable against the starting totals, and nothing is buildable against the final totals |
| `LegacyFacilityPlanning.NothingPickedAsWritten` | src/systems/facilityPlanning.ts:133-149 | as written, the greedy pass picks nothing and leaves the totals as they were |
| `LegacyFacilityPlanning.FactoryModules` | src/systems/facilityPlanning.ts:192-198 | a factory has a small container before each module |
| `LegacyFacilityPlanning.PackFrom` | src/systems/facilityPlanning.ts:164-199 | the loop throws `TypeError` only for a queued module with no owned sector, and always does when no factory is open |
| `LegacyFacilityPlanning.PackFromPlaced` | src/systems/facilityPlanning.ts:164-199 | with a sector to pick from the loop succeeds and the factories hold the open factory's modules and then the popped ones, in order |
| `LegacyFacilityPlanning.PackFromShape` | src/systems/facilityPlanning.ts:164-199 | every factory holds at least one module and stands in an owned sector |
| `LegacyFacilityPlanning.Pack` | src/systems/facilityPlanning.ts:164-199 | the packing throws `TypeError` exactly when a module is queued and no sector is owned |
| `LegacyFacilityPlanning.PackPlacesEveryModule` | src/systems/facilityPlanning.ts:164-199 | every queued module is placed once, in pop order, in a non-empty factory in an owned sector |
| `LegacyFacilityPlanning.MiningForSectors` | src/systems/facilityPlanning.ts:207-213 | the mining pass over the owned sectors succeeds exactly when each sector's does |
| `LegacyFacilityPlanning.MiningForSectorsAsWritten` | src/systems/facilityPlanning.ts:207-213 | as written, the mining pass over the owned sectors throws exactly when one of them holds a commodity that can be mined |
| `LegacyFacilityPlanning.PlanHabitats` | src/systems/facilityPlanning.ts:85-116 | the habitat pass throws `TypeError` exactly when a sector is owned and the small container or the habitat has no `create`; otherwise it places one habitat per owned sector, in order |
| `LegacyFacilityPlanning.PlanFaction` | src/systems/facilityPlanning.ts:207-219 | a failure is `TypeError` or the greedy pass running out of fuel; a plan belongs to the faction, every owned sector's mining pass succeeded, and only a territorial faction gets habitats, one per owned sector, and factories |
| `LegacyFacilityPlanning.PlanAll` | src/systems/facilityPlanning.ts:207-219 | the pass over the computer factions succeeds exactly when every faction's plan does; a failure is some faction's |
| `LegacyFacilityPlanning.Exec` | src/systems/facilityPlanning.ts:202-221 | nothing is planned and the cooldowns are left as they are unless `plan` is ready and the game time is 0; then the cooldown restarts at 500 before the factions are planned, so a throwing pass still spends it, and the outcome is the pass's |
| `LegacyFacilityPlanning.PlansOnceAtStart` | src/systems/facilityPlanning.ts:202-205 | planning happens only at time 0, and once a tick has planned, whether its planning threw or not, no later tick plans again, whatever its time: `exec` takes no delta, so the cooldown never runs down |
| `LegacyFacilityPlanning.PlanFactionAsWritten` | src/systems/facilityPlanning.ts:207-219 | as written, a faction's plan throws `TypeError` exactly when an owned sector holds a commodity that can be mined, or the faction is territorial and owns a sector |
| `LegacyFacilityPlanning.ExecThrowsAsWritten` | src/systems/facilityPlanning.ts:202-221 | as written, the first planning tick throws `TypeError` exactly when some computer faction owns a sector holding a commodity that can be mined, or is territorial and owns any sector |
| `LegacyFacilityPlanning.NoFuelFailureAsWritten` | src/systems/facilityPlanning.ts:133-162 | as written, a faction's plan can fail only with `TypeError`, never by the greedy pass running on |

## Left out

- Persistence I/O: `save`, `deleteSave`, `listSaves`, `serialize` with the mathjs replacer, the BigInt patch and `destroy`. Only the in-memory `toJSON`/`load` pair is modelled.
- Rendering, sprites, the UI, devtools, reporting systems, `tauHarassing` and world generation. None of them is part of the simulation core modelled here.
- Positions and geometry: `getSectorPosition`'s rejection sampling, `hecsToCartesian` and the random offsets of new facilities. Planned facilities record only their sector.
- Random draws are parameters with no distribution: `random`, `Math.random`, `randomInt`'s uniform draw, `shuffle` (assumed only to reorder, `FacilityPlanning.Reorders`) and `pickRandom` (an index into the owned sectors).
- Values computed by code that is not part of this model are parameters:
  - the regional average price (`getAveragePrice` needs `getSectorsInTeleportRange`);
  - the planned budget (`getPlannedBudget`);
  - `settings.global`;
  - `gameDay` and `gameMonth`;
  - sector resources and faction usage/production totals (`getSectorResources`, `getResourceUsage`, `getResourceProduction`);
  - the ship-returning waypoint id;
  - the path-distance table `sim.paths`.
- Helpers whose source is not part of this model get simple stand-ins, each stated in the module that uses it:
  - `Cooldowns` for utils/cooldowns.ts;
  - `limit` as a clamp;
  - `addStorage`, `removeStorage`, `hasSufficientStorage`, `getAvailableSpace` and `getRequiredStorage`;
  - `addEntity` as an append;
  - `findInAncestors`, `getMineableAsteroid`, `spawn` and `moveToActions`;
  - `createBudget`, `createDocks`, `createCommodityStorage`, `createTrade`, `createRender` and `createRenderGraphics`;
  - the commodity table (every commodity the recipe table names; the mineable ones are those with an asteroid-field colour);
  - `addTag`, which is not in core/components/entity.ts, taken to add the tag and fire an `addTag` hook;
  - `BaseSim.updateTimer`, taken to advance the sim time `time` by `delta`, leaving the time offset as it was;
  - the `System` base class (core/systems/system.ts is not part of this model), taken to count every system's cooldowns down by `delta` on each tick. `ShipReturning.Exec` and `FacilityPlanning.Exec` rely on this: core/systems/ai/shipReturning.ts:19-21 and core/systems/ai/facilityPlanning.ts:302-305 never call `update` themselves.
- JavaScript numbers are exact reals extended with the infinities and NaN. IEEE-754 rounding is not modelled.
- `ProductionCost.Cost`: the source recursion has no guard against a recipe that consumes what it produces; the model recurses on an explicit `fuel`, and `ProductionCost.RankedCostTerminates` shows that enough fuel always suffices for ranked (acyclic) recipes.
- `Trading.MinPrice`: bounded by the same `fuel` as the production cost it reads.
- `Producing.FindStorageHolder`: the ancestor walk is bounded by `fuel`, which leaves a parent cycle unmodelled.
- `FacilityPlanning.Greedy`: the `while (true)` loop is bounded by `fuel`, and running out of it is an error the source does not have. `FacilityPlanning.TraceWithinFuel` shows that enough fuel returns exactly the loop's picks.
- `LegacyFacilityPlanning.Greedy`: bounded by `fuel` in the same way.
- `EntityModules.AddFacilityModule`: a `TypeError` thrown halfway is reported with the facility unchanged, whereas the source keeps the writes made before the throw.
- `Producing.Exec`: the same applies to a `TypeError` thrown halfway through the pass over the producing entities.
- `Archetypes.Build`: `new Entity(sim)` registers the entity and the base components are added before the sector lookup or `createFacilityName` (core/archetypes/facility.ts:92-98) can throw; the model's `Failure` carries no sim, so those writes are not reported.
- `Archetypes.CreateFacility`: the same applies to the owner-colour read (core/archetypes/facility.ts:76-78), which can throw after the entity is registered.
- `Mining.MineAction`: `spawn` and the write of `order.targetRockId` (core/systems/orderExecuting/mine.ts:28-34) run before `orders!.value[0]` can throw; the failure is reported with nothing changed.
- `FacilityPlanning.PlanAll`: factions planned before the one that throws keep their facilities in the source (each `createFacility` has already run); the model's failure returns no plans.
- `LegacyFacilityPlanning.PlanAll`: the same, for the older planner; a faction whose mining complexes were created before its habitats throw also keeps them.
- `ShipReturning.ReturnAll`: crafts handled before the one that throws keep their new orders in the source; the model's failure carries none, though `ShipReturning.Exec` keeps the restarted cooldown.
- `StorageQuota.Exec`: entities settled before the one that throws keep their new quotas in the source; the model's failure carries none, though the restarted cooldown is kept.
- `Trading.AdjustAll`: traders adjusted before the one that throws keep their new prices in the source; the model's failure carries none.
- `Trading.OfferAll`: traders whose offers were made before the one that throws keep them in the source; the model's failure carries none.
- `Trading.Exec`: the same applies to a throw in either pass; the restarted cooldowns are kept.
- `DeployFacility.DeployFacilityAction`: a ship with a render and no position throws at core/systems/orderExecuting/deployFacility.ts:51, after the ten ship parts are removed and the kit is added (lines 20-49); the model's failure leaves the entity untouched.
- `CoreSim.Load`: the model's simulation has no queries and no systems, so re-applying every configured system and resetting every query (core/sim/Sim.ts:211-218) are not modelled; its empty hook log says only that loading fires no entity hook. That `timeOffset` survives `plainToInstance` is assumed, because `BaseSim` is not part of this model.
- `Producing.UnregisterWithModules`: modules unregistered before a missing one makes `getOrThrow` throw stay unregistered in the source; the model's failure carries no sim.
- `StorageQuota.ProductionQuota`: a compound recipe whose required storage is 0 makes the source compute `Math.floor(0 / 0)`, which is NaN (src/systems/storageQuotaPlanning.ts:34-39); `StorageQuota.ProductionShare` gives 0 there, because quotas are integers in the model.
- `CoreSim.Next`: its "entities untouched" promise holds because the phase hooks are logged, not run; hooks that change entities are not part of this model.
- `LegacySim.Next`: likewise, each system's `exec(delta)` is logged, not run, so the "entities untouched" promise of `LegacySim.Next` and `LegacySim.TicksRepeatSystems` says nothing about what the systems themselves do.
- `LegacyFacilityPlanning.Exec`: the source's `exec` takes no delta and never calls `update`, so the `plan` cooldown never runs down; the model follows this, and `LegacyFacilityPlanning.PlansOnceAtStart` shows that no tick after a planning tick plans again.
- `FacilityPlanning.StartingCommodities`: starts from storage whose quotas were already settled. The `settleStorageQuota` call of the current engine (core/systems/storageQuotaPlanning.ts) is not part of this model.
- The `isDev` console table at the end of the current `planFactories` is left out, because it is logging only.
- `Mining.MineAction`: `stop(entity)` changes only movement state, which the model's record does not hold.

## Behaviour as written

The model follows the code in these places, including where its names or comments suggest otherwise:

- `produce` caps the produced amount by `quota - produces * m`, not by the space left below the quota, so a store can end above its quota (`Producing.ProduceCanExceedQuota`).
- A mining target whose id is 0 is falsy and is re-acquired (`Mining.RockZeroIsDropped`). A miner still flagged as arrived reserves a newly chosen rock in the same step (`Mining.StaleArrivalReservesNewRock`).
- `deployFacilityAction` adds no module queue, so the deployed entity passes `facility(entity)` only if the ship already had one (`DeployFacility.DeployedFacilityNeedsQueue`).
- `createFacility` computes the name before the owner is attached, so the initial name never carries the owner's slug (`Archetypes.FacilityInNewSector`).
- The current planner measures faction usage per sector for mining complexes and per faction for factories.
- The older planner's ratio test compares usage over production, and the current planner's compares production over usage.

## Findings

| source | as written | input that shows it | evidently intended | confidence | as-written member | corrected member |
|---|---|---|---|---|---|---|
| core/components/entity.ts:89-91 | `Entity.toJSON` keeps only `components`, `cooldowns` and `id`, but `Sim.load` rebuilds `tags` from the saved entity (core/sim/Sim.ts:233). Every tag is lost on a save/load round trip (`CoreSim.LoadAsWrittenDropsTags`). | one entity tagged "facility", saved with `toJSON` and loaded back | the saved entity carries its tags, and load restores them | not executed | `CoreSim.TagLostCounterexample` | `CoreSim.SaveLoadRoundTrip` |
| src/archetypes/facilityModule.ts:105-113 | the gold refinery lists `gold: { consumes: 400, produces: 0 }`. Nothing mines or produces gold, but electronics production consumes it (lines 124-134). | the recipe table itself: `gold` is consumed by two templates and produced by none | the refinery produces 400 gold, so every consumed commodity has a source | not executed | `LegacyArchetypes.GoldUnsuppliedAsWritten` | `LegacyArchetypes.CorrectedTableSupplyClosed` |
| core/systems/ai/facilityPlanning.ts:238-284 | starting commodities go only to a factory that is left behind when a new one begins, so the factory still open when the queue empties gets none. Every mining complex and habitat is stocked. | one picked module at game time 0, which gives one factory that is never stocked | every factory planned at time 0 is stocked; the plan itself (`FacilityPlanning.PlanFactories`) keeps the packing as written | not executed | `FacilityPlanning.LastFactoryUnstocked` | `FacilityPlanning.PackStocksEveryFactory` |
| src/systems/facilityPlanning.ts:65-73 | the planner reads `pac`, `time` and `create` off the `facilityModules` entries. Those entries are the closures `createFacilityModuleTemplate` returns (src/archetypes/facilityModule.ts:35-40), so no miner is ever found and `facilityModule.pac!` throws, and the closures have no `create` either, so `facilityModules.containerSmall.create` and `facilityModules.habitat.create` (lines 109 and 113) throw `TypeError` for every territorial faction that owns a sector (`LegacyFacilityPlanning.ExecThrowsAsWritten`, `LegacyFacilityPlanning.NothingPickedAsWritten`). As written the file does not type-check either, for the same reason, and `FacilityPlanningSystem` is not in the older simulation's system list (src/sim/Sim.ts:39-50), so the throw is not reached from `LegacySim.Next`. | a computer faction owning a sector that holds ore, on the first tick | each entry is read through the record its template is made from, with its `create`, and every mineable commodity has a miner | not executed | `LegacyFacilityPlanning.MiningThrowsAsWritten` | `LegacyFacilityPlanning.MiningSucceedsOnOres` |
