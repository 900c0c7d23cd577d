# Moon-base network bot, modelled in Dafny

This project models the decision core of a turn-based bot that grows a transport
network on a lunar base. Each turn the bot reads the following:

- its budget;
- the current tubes (routes);
- the current pods;
- the buildings that arrived this turn. A landing pad carries a list of astronaut
  types it serves. A module has a type.

The bot then emits `TUBE`, `POD` and `TELEPORT` actions. A `GameState` keeps the
buildings, two per-kind indexes (landing pads, and modules by type), and three sets
of unordered id pairs:

- routes;
- teleporters;
- pod routes.

It also keeps the set of pod ids. Every building carries three flags (`connected`,
`entrance`, `exit`) that the passes set in place.

A turn works as follows:

1. Read the input. The budget, routes and pods are replaced. Pod routes and
   teleporters carry over from earlier turns.
2. Register the arrivals.
3. Refresh the `connected` flags from the routes. With no routes, only the first
   registered building is connected.
4. Run three passes over the arrivals:
   - **connect**: landing pads first. Each unconnected arrival gets a tube to the
     nearest connected building, preferring type-matched partners.
   - **routes and pods**: for each arriving pad, then each older pad, and each
     module it serves, build the missing tube and then a pod.
   - **teleporters**: each arriving pad becomes an entrance and gets a teleporter to
     the first free module of the type named by each entry of its astronaut list.

## How the model is built

- `Network.Building` is a class. Its identity, kind, position and served types are
  constants. The three flags are mutable fields. The dict, the two indexes and the
  arrival list all alias the same objects, as in the program.
- `Game.GameState` is a class with one field per attribute of the program's state:
  - the `buildings` dict becomes `buildings` (insertion order) plus `index` (id
    lookup);
  - `landing_pads` becomes `landingPads`;
  - the `modules` defaultdict becomes `modules`, a map where a missing type reads as
    the empty list.

  `Valid()` says that the indexes agree with `buildings`, that ids are unique, and
  that every pair set holds each unordered pair in its sorted form.
- `Network.Net` is the value of the whole state at one instant. Its flag fields are
  the sets of buildings whose flag is set. `GameState.Model()` builds it from the
  fields and the flags.
- Each pass is a specification function on `Net`: `Refreshed`,
  `Connect.ConnectNew`, `Pods.RoutesAndPods`, `Teleport.Teleporters`, and
  `Turn.TurnSpec` for the whole turn. Each one folds over the same lists in the same
  order as the program's loops.
- Each pass is also a `GameState` method with the program's loops. Its `ensures`
  ties the new `Model()` and the emitted actions to that function of the old
  `Model()`.
- The properties are lemmas about the specification functions. They cover:
  - well-formedness;
  - every route endpoint being connected;
  - a non-negative budget;
  - which pairs each action joins;
  - fresh and consecutive pod ids.
- `Ledger.Replay` checks an action list against bookkeeping rules:
  - a tube joins a pair that has no route yet;
  - a pod runs out and back on an existing route that has no pod yet, and carries
    the next id;
  - no module is the exit of two teleporters.

  `Turn.TurnLedger` proves that every turn's action list passes these checks.

## Model

| member | source | states |
|---|---|---|
| Pairs.Canon | solution.py:39-40 | the stored form of an unordered pair is its two ids, smaller first |
| Pairs.CanonSymmetric | solution.py:39-52 | both argument orders store and look up the same pair |
| Pairs.CanonInjective | solution.py:45-52 | two calls give the same stored pair exactly when they name the same two ids |
| Pairs.Add | solution.py:39-43 | adding a pair makes it present and adds nothing else |
| Pairs.AddExact | solution.py:39-52 | after adding (a, b), a pair is present iff it was before or it is {a, b} in either order |
| Pairs.AddCanonical | solution.py:39-43 | adding keeps every pair in sorted form, and adding (b, a) after (a, b) changes nothing |
| Pairs.HasSymmetric | solution.py:45-52 | `has_route`, `has_teleport` and `has_pod_route` ignore argument order |
| Pairs.Table | solution.py:220-224 | the route set built from the input lines holds only sorted pairs |
| Pairs.TableHas | solution.py:220-224 | after reading the route lines, a pair has a route iff it appears in the input in either order |
| Pairs.TableSnoc | solution.py:221-224 | reading one more route line is one `add_route` |
| Geometry.ISqrt | solution.py:57 | the floor square root: r*r <= n < (r+1)*(r+1) |
| Geometry.ISqrtUnique | solution.py:57 | only one number lies between those bounds, so the scaled distance is well defined |
| Geometry.DistanceSymmetric | solution.py:54-57 | the distance does not depend on the order of the two buildings |
| Geometry.DistanceZeroIff | solution.py:54-57 | the distance is 0 exactly for two equal positions |
| Geometry.DistanceAtLeastTen | solution.py:54-57 | two different integer positions are at least 10 apart in tenths |
| Geometry.DistanceAlongAxis | solution.py:54-57 | k cells along one axis measure exactly 10*k |
| Network.Building.constructor | solution.py:7-19 | a new building has the given fields and all three flags clear |
| Network.Pads | solution.py:28-35 | the landing-pad index holds exactly the registered buildings of kind 0 |
| Network.Modules | solution.py:29-37 | the module index holds exactly the registered buildings of non-zero kind |
| Network.ModulesOf | solution.py:29-37 | `modules[t]` holds exactly the registered modules of type t |
| Network.IndexesAppend | solution.py:32-37 | registering a building appends it to the pad index or to its type's list, and to nothing else |
| Network.PadsModulesCount | solution.py:32-37 | the two indexes split the registered buildings: together they are a permutation of them |
| Network.PadsFirstSorted | solution.py:106 | the stable sort on `type != 0` is a permutation of the arrivals with every pad before every module |
| Network.TouchesAdd | solution.py:98-102 | after a route is added, an id touches a route iff it did before or it is an endpoint of the new one |
| Network.HasTouches | solution.py:98-102 | both ends of an existing route touch a route |
| Network.RefreshSeed | solution.py:94-96 | with no routes, exactly the first registered building is connected |
| Network.RefreshEndpoints | solution.py:98-102 | with routes, a registered building is connected iff its id is an endpoint of some route |
| Network.RefreshIdempotent | solution.py:90-102 | refreshing twice is the same as refreshing once |
| Network.RefreshEstablishes | solution.py:90-102 | the refresh keeps the state well formed, connects every registered route endpoint, and connects something when there are buildings but no routes |
| Network.SameIdSameBuilding | solution.py:33 | with unique ids, an id names one building |
| Network.DistinctBuildingsFar | solution.py:54-57 | with no shared positions, two different buildings are at least 10 apart |
| Search.Nearest | solution.py:63-67 | the scan finds something iff it started with a best or saw a candidate, and its result is the old best or a candidate |
| Search.NearestAppend | solution.py:69-79 | scanning two lists one after the other is one scan of their concatenation |
| Search.NearestFirstMinimum | solution.py:63-67 | with the strict `<` update, the scan ends on the first candidate of least distance |
| Search.FindSound | solution.py:59-88 | the chosen target is registered, connected and not the building itself, and the score uses the real distance |
| Search.FindPhases | solution.py:69-86 | a discounted result exists iff the type-matched scan found a candidate; it is a served-type module for a pad, or a serving pad for a module |
| Search.FindNoneIff | solution.py:81-88 | the search finds nothing iff no other building is connected |
| Search.FindFirstMinimum | solution.py:59-88 | the result is the first nearest of the list scanned: strictly nearer than all before it, no farther than any after |
| Search.FindIgnoresOwnFlag | solution.py:116-121 | the search does not read the building's own flag, so it is unchanged by the first tube |
| Search.SeedGivesCandidate | solution.py:81-96 | on a network with no routes, every building but the first finds a target |
| Ledger.ReplayAppend | solution.py:248-252 | checking concatenated action lists is checking one list and then the other |
| Ledger.ReplayOkStart | solution.py:248-252 | a list that passes started from a sound state |
| Ledger.ReplayRoutesGrow | solution.py:113-188 | replaying actions never removes a route |
| Ledger.TubesDistinct | solution.py:182-188 | in a list that passes, no tube joins a pair that already had a route, and no two tubes join the same pair |
| Ledger.PodsDistinct | solution.py:191-199 | in a list that passes, no pod uses a pair that already had a pod, and no two pods use the same pair |
| Ledger.PodsOnRoutes | solution.py:191-195 | every pod in a list that passes runs on a route that exists by then, and returns to the pad |
| Ledger.PodCountAppend | solution.py:194-199 | pods are counted additively over concatenation |
| Ledger.PodIdsConsecutive | solution.py:194-199 | the i-th pod carries the starting id plus the number of pods before it |
| Ledger.ReplayNext | solution.py:199 | the next pod id moves on by one per pod emitted |
| Ledger.ExitsDistinct | solution.py:135-145 | in a list that passes, no teleporter exits at an existing exit, and no two share an exit |
| Connect.SecondTubeOn | solution.py:119-125 | a second tube is built iff a second target exists, differs from the first and is within budget; it costs 1 |
| Connect.SecondTubeNever | solution.py:118-125 | the second search always returns the first target again, so the redundancy branch never builds a tube |
| Connect.ConnectStepSingle | solution.py:108-125 | an unconnected arrival with an affordable target gets exactly one tube to it; any other arrival changes nothing |
| Connect.ConnectStepFacts | solution.py:108-116 | one arrival: at most one tube; only the budget (1 per tube), the routes and the connected set change; the tube is a new route; route ends stay connected |
| Connect.ConnectFromFacts | solution.py:108-126 | the same over the loop, with at most one tube per arrival |
| Connect.ConnectNewFacts | solution.py:104-126 | the same over the pass; with no shared positions, a non-negative budget stays non-negative |
| Pods.NextPodId | solution.py:171 | the first pod id is larger than every known pod, is 1 when there are none, and is otherwise one past the largest |
| Pods.Range | solution.py:194-199 | the ids handed out are exactly those from the first id up to the next id |
| Pods.LinkFacts | solution.py:178-199 | one pad–module step changes only the budget, routes, pod routes and pods; each action joins this pad with a connected module it serves; a tube is a new route; a pod is on a route, with a fresh pair and the next id; each pod costs at least 1000; the budget stays non-negative |
| Pods.OverModulesFacts | solution.py:176-199 | the same over the modules of one type |
| Pods.OverTypesFacts | solution.py:175-199 | the same over the types a pad serves |
| Pods.ProcessPadFacts | solution.py:174-199 | the same for `process_building_connections` on one pad |
| Pods.OverNewPadsFacts | solution.py:202-204 | the same over the arriving pads, each action starting at an arriving pad |
| Pods.Without | solution.py:209 | the older pads are exactly the registered pads that are not arrivals |
| Pods.OverOldPadsFacts | solution.py:207-210 | the same over the older pads, each action starting at an older pad |
| Pods.RoutesAndPodsFacts | solution.py:169-212 | the whole pass keeps all of the above; pod ids start one past the largest known pod, are fresh, and are consecutive; when fewer than 1000 remain after the arriving pads, every action starts at an arriving pad |
| Pods.PodOnlyFacts | solution.py:157-165 | one step of `setup_pods`: a pod only on an existing route with no pod, for 1000, with the next id |
| Pods.PodsOverModulesFacts | solution.py:156-165 | the same over one type's modules |
| Pods.PodsOverTypesFacts | solution.py:155-165 | the same over a pad's types |
| Pods.PodsOverNewsFacts | solution.py:153-165 | the same over the arrivals |
| Pods.SetupPodsFacts | solution.py:149-167 | `setup_pods` gives fresh pod ids from one past the largest, emits pods only, and leaves the routes alone |
| Teleport.FreeExit | solution.py:135-139 | the module found is the first of the list that is not an exit and not yet joined to the pad by a teleporter (every module before it is blocked); none is found iff every module is an exit or already joined |
| Teleport.PlaceKeeps | solution.py:141-145 | one teleporter from a pad to a free module it serves: only the exit flag, the budget (5000) and the teleporter set change; the exit was unused and the pair had no teleporter |
| Teleport.TeleportTypesFacts | solution.py:134-145 | one pad: at most one teleporter per entry of its astronaut list, each from this pad to a free module of that entry's type; each costs 5000 and the budget stays non-negative; no exit is used twice |
| Teleport.VisitFacts | solution.py:130-145 | an arriving pad becomes an entrance, a module does not, and the teleporters start at the pad |
| Teleport.TeleportFromFacts | solution.py:128-147 | the whole pass: only the budget, teleporters, entrances and exits change; the entrances gained are exactly the arriving pads |
| Teleport.TwoTeleportersFromOnePad | solution.py:128-147 | one pad serving two types gets two teleporters in one turn, so it is an entrance for more than one teleporter |
| Teleport.RepeatedTypeTwoTeleporters | solution.py:134-145 | a pad whose astronaut list names one type twice gets two teleporters of that type in one turn, to the first two free modules of the type |
| Turn.TurnSteps | solution.py:246-252 | the turn is the refresh followed by the three passes, with their action lists concatenated in order |
| Turn.FirstPass | solution.py:246-250 | after the refresh and the connect pass: well formed, route ends connected, only fresh tubes, no pods, no new entrances |
| Turn.SecondPass | solution.py:251 | the routes-and-pods pass as the turn sees it: fresh consecutive pod ids, a non-negative budget, route ends connected |
| Turn.ThirdPass | solution.py:252 | the teleporter pass as the turn sees it: no pods, entrances gained are the arriving pads |
| Turn.TurnLedger | solution.py:246-252 | a turn's whole action list passes the ledger checks from the turn's start; the pods gained are exactly the fresh ids handed out |
| Turn.TurnState | solution.py:246-252 | after a turn the state is well formed and every route end is connected; with no shared positions the budget stays non-negative; the entrances gained are exactly the arriving pads |
| Game.OfferConnected | solution.py:71-74 | the loop over one type's modules keeps the nearest connected one, with its distance |
| Game.ScanPadTypes | solution.py:70-74 | the pad's loop over its served types is the nearest-candidate scan of the type-matched list |
| Game.OfferServingPads | solution.py:76-79 | the module's loop over the pads keeps the nearest connected pad that serves its type |
| Game.ScanTyped | solution.py:69-79 | the type-matched phase, for either kind of building |
| Game.OfferOthers | solution.py:83-86 | the fallback loop keeps the nearest other connected building |
| Game.ScanFor | solution.py:59-88 | the two-phase search over the fields returns `Find` of the state |
| Game.IndexedAppend | solution.py:32-37 | registering a building keeps the dict and both indexes in agreement with the insertion order |
| Game.CollectRoutes | solution.py:220-224 | the loop over the route lines builds `Table` of the lines |
| Game.GameState.constructor | solution.py:22-30 | a new state is empty, with a zero budget |
| Game.GameState.AddBuilding | solution.py:32-37 | the building is appended to the dict and to its index, and the state stays valid |
| Game.GameState.AddRoute | solution.py:39-40 | the route set gains the sorted pair and nothing else changes |
| Game.GameState.AddTeleport | solution.py:42-43 | the teleporter set gains the sorted pair and nothing else changes |
| Game.GameState.HasRoute | solution.py:45-46 | true iff the pair is a route, in either order |
| Game.GameState.HasTeleport | solution.py:48-49 | true iff the pair has a teleporter, in either order |
| Game.GameState.HasPodRoute | solution.py:51-52 | true iff the pair has a pod, in either order |
| Game.GameState.CalculateDistance | solution.py:54-57 | the result is the floor of ten times the Euclidean distance: d*d <= 100*(dx²+dy²) < (d+1)² |
| Game.GameState.FindOptimalConnectionPoint | solution.py:59-88 | the search returns `Find` of the current state |
| Game.GameState.ClearConnected | solution.py:91-92 | every registered building is unflagged |
| Game.GameState.SeedFirst | solution.py:94-96 | only the first registered building is connected |
| Game.GameState.FlagEndpoints | solution.py:98-102 | the connected buildings are exactly those whose id is a route endpoint |
| Game.GameState.InitializeNetworkState | solution.py:90-102 | the new state is `Refreshed` of the old |
| Game.GameState.BuildTube | solution.py:113-115 | one unit spent and the route added |
| Game.GameState.JoinFirst | solution.py:112-116 | the first tube: one unit spent, the route added, the arrival connected |
| Game.GameState.SecondConnection | solution.py:118-125 | the redundancy branch, as `Connect.SecondTube` |
| Game.GameState.ConnectOne | solution.py:109-125 | one arrival, as `Connect.ConnectStep` |
| Game.GameState.ConnectNewBuildings | solution.py:104-126 | the pass, as `Connect.ConnectNew` |
| Game.GameState.TubeIfMissing | solution.py:182-188 | a missing tube is built, at its length in cost, iff the budget covers that length |
| Game.GameState.PodIfFree | solution.py:191-199 | the pod half of one step, as `Pods.PodOnly` |
| Game.GameState.LinkPad | solution.py:176-199 | one pad–module step, as `Pods.Link` |
| Game.GameState.LinkModules | solution.py:176-199 | the loop over one type's modules, as `Pods.OverModules` |
| Game.GameState.ProcessBuildingConnections | solution.py:174-199 | the helper on one pad, as `Pods.ProcessPad` |
| Game.GameState.LinkNewPads | solution.py:202-204 | the loop over arriving pads, as `Pods.OverNewPads` |
| Game.GameState.LinkOldPads | solution.py:207-210 | the loop over older pads, as `Pods.OverOldPads` |
| Game.GameState.SetupRoutesAndPods | solution.py:169-212 | the pass, as `Pods.RoutesAndPods` |
| Game.GameState.FirstFreeExit | solution.py:135-139 | the first free module, as `Teleport.FreeExit` |
| Game.GameState.PlaceTeleporter | solution.py:141-145 | the module becomes an exit, 5000 are spent, and the teleporter is recorded |
| Game.GameState.TeleportType | solution.py:134-145 | one served type: a teleporter to the first free module iff there is one and 5000 remain; otherwise nothing changes |
| Game.GameState.PlaceTeleporters | solution.py:134-145 | the loop over a pad's types, as `Teleport.TeleportTypes` |
| Game.GameState.VisitArrival | solution.py:130-145 | one arrival, as `Teleport.Visit` |
| Game.GameState.SetupTeleporters | solution.py:128-147 | the pass, as `Teleport.Teleporters` |
| Game.GameState.PodModules | solution.py:156-165 | `setup_pods` over one type's modules, as `Pods.PodsOverModules` |
| Game.GameState.PodTypes | solution.py:155-165 | `setup_pods` over a pad's types, as `Pods.PodsOverTypes` |
| Game.GameState.SetupPods | solution.py:149-167 | `setup_pods`, as `Pods.SetupPods` |
| Game.GameState.SetBudget | solution.py:218 | the budget is replaced |
| Game.GameState.LoadRoutes | solution.py:220-224 | the routes are replaced by the table of the input lines |
| Game.GameState.LoadPods | solution.py:226-230 | the pod set is replaced by the ids read |
| Game.GameState.Register | solution.py:232-244 | a fresh building built from the input line is registered under its id, and the state stays valid |
| Game.GameState.LoadArrivals | solution.py:232-244 | every arrival line becomes a fresh registered building, in order |
| Game.GameState.ReadTurn | solution.py:218-244 | the state after the input is `TurnInput` of the old state |
| Game.GameState.RunPasses | solution.py:246-252 | the refresh and the three passes, as `Turn.TurnSpec` |
| Game.GameState.PlayTurn | solution.py:217-252 | one turn of the main loop: read the input, then `Turn.TurnSpec`, with the arrivals fresh buildings made from the input lines |

### Where the model follows the code rather than the design

- **Tube cost in the connect pass.** The design says a tube costs its length. In the
  connect pass the code charges 1 per tube (solution.py:114, 124). In the
  routes-and-pods pass it charges the length (solution.py:187). The model charges
  the same as the code in each pass. So when a module arrives next to the pad it
  serves, the tube costs 1 and not its length. With a budget of 1000, 999 remain
  rather than 900.
- **Budget gate in the connect pass.** The code compares the score with the budget,
  not the real cost. A type-matched score is 0.8 times the distance. The model
  writes this gate as `4*d <= 5*R` (`Search.Affordable`).
- **Redundant second tube.** The design describes a second tube for redundancy. The
  second search sees the same flags, apart from the arrival's own, which the search
  never reads. So it returns the first target again, and the branch never builds a
  tube (`Connect.SecondTubeNever`).
- **Teleporters per pad.** The design says each pad gets at most one teleporter. The
  code gives a pad one teleporter per served type that has a free module
  (`Teleport.TwoTeleportersFromOnePad`). What holds is that no module is the exit of
  two teleporters.
- **Teleporters per served type.** The design also says a pad gets at most one
  teleporter per served type per turn. The astronaut list holds one entry per
  astronaut (solution.py:241), so a type can be listed more than once. The loop runs
  once per entry, so a type listed twice gets two teleporters, to the first two free
  modules of that type (`Teleport.RepeatedTypeTwoTeleporters`). The bound that holds
  is one teleporter per list entry (`Teleport.TeleportTypesFacts`).
- **Non-negative budget.** In the connect pass the gate uses the score but the pass
  charges 1 per tube. A tube to a building at the same position has score 0, so it
  passes the gate even when the budget is 0, and the budget drops to -1. The model
  therefore proves a non-negative budget only when no two buildings share a
  position (`Turn.TurnState`).

## Left out

- Reading standard input and printing the action line are left out. `PlayTurn` takes
  the parsed values: the budget, the route pairs, the pod ids, and the arrival
  records (`Game.Arrival`). It returns the actions as `Network.Action` values,
  rather than as text joined by `;` or `WAIT`.
- The endless `while True` loop in `main` is modelled as one turn, `PlayTurn`. Any
  number of turns are successive calls on the same `GameState`.
- Route capacity (the third number on a route line) is read and ignored by the
  program. It is not modelled.
- Floating point: the factor 0.8 is treated as exact. The rounded-down `hypot * 10`
  is modelled as the integer square root of `100*(dx²+dy²)`. The two can differ
  only where the binary rounding of `hypot` or of the product lands on the other
  side of an integer.
- Dataclass equality: `landing_pad not in new_buildings` compares buildings by
  value. The model compares them by identity. The two agree because ids are unique.
- Duplicate building ids across or within turns are excluded (`FreshIds`). Re-adding
  an id in the program would replace the dict entry but leave the stale object in
  the indexes.
- Looking up `modules[t]` in a defaultdict inserts an empty list for `t`. This has
  no visible effect and is not modelled. A missing type reads as the empty list.
- `process_building_connections` takes an `is_new` argument that it never reads. It
  is not modelled.
