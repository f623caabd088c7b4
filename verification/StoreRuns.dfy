/** What every sequence of operations on the store keeps, and what the runners
    can rely on because of it. */
module StoreRuns {
  import opened Configs
  import opened Endpoints
  import opened Net
  import opened Persistence
  import opened Ports
  import opened Reopening
  import opened Rotation
  import opened Status
  import opened Store
  import opened Text
  import opened Wrappers

  /** `written` says whether the operation can write the file. A restart reads
      the file into a new store. */
  datatype Op =
    | Add(config: InstanceConfig, newID: string, written: bool)
    | Update(id: string, config: InstanceConfig, written: bool)
    | Delete(id: string, written: bool)
    | Regroup(groups: Servers, written: bool)
    | SaveStatus(id: string, status: RuntimeStatus, written: bool)
    | ClearStatus(id: string, written: bool)
    | Restart

  function Attempt(db: Database, op: Op, isIPv4: string -> bool): Result<Database, StoreError>
    requires !op.Restart?
  {
    match op
    case Add(config, newID, _) => Added(db, config, newID, isIPv4)
    case Update(id, config, _) => Updated(db, id, config, isIPv4)
    case Delete(id, _) => Deleted(db, id)
    case Regroup(groups, _) => Regrouped(db, groups, isIPv4)
    case SaveStatus(id, status, _) => Ok(db.(runtime := Save(db.runtime, id, status)))
    case ClearStatus(id, _) => Ok(db.(runtime := Removed(db.runtime, id)))
  }

  /** The operation has nothing to save. */
  predicate Idle(db: Database, op: Op, isIPv4: string -> bool) {
    (op.SaveStatus? || op.ClearStatus?) && Attempt(db, op, isIPv4).value == db
  }

  function Step(s: Stores, op: Op, isIPv4: string -> bool): Stores {
    if op.Restart? then Stores(Loaded(s.disk), s.disk)
    else if Idle(s.db, op, isIPv4) then s
    else Commit(s, Attempt(s.db, op, isIPv4), op.written)
  }

  function Run(s: Stores, ops: seq<Op>, isIPv4: string -> bool): Stores {
    if ops == [] then s else Step(Run(s, ops[..|ops| - 1], isIPv4), ops[|ops| - 1], isIPv4)
  }

  /** A save or removal of a runtime status is that of the store: an unchanged set of
      stored mappings is not written. */
  lemma StatusOperations(s: Stores, id: string, status: RuntimeStatus, written: bool, isIPv4: string -> bool)
    ensures Step(s, SaveStatus(id, status, written), isIPv4) == PutRuntime(s, Save(s.db.runtime, id, status), written)
    ensures Step(s, ClearStatus(id, written), isIPv4) == PutRuntime(s, Removed(s.db.runtime, id), written)
  {
  }

  // ----- The invariant

  predicate UniqueIDs(items: seq<InstanceConfig>) {
    forall i, j :: 0 <= i < j < |items| ==> items[i].id != items[j].id
  }

  ghost predicate GoodItems(items: seq<InstanceConfig>, isIPv4: string -> bool) {
    && UniqueIDs(items)
    && (forall i :: 0 <= i < |items| ==> items[i].id != "" && Usable(items[i], isIPv4))
  }

  ghost predicate GoodLists(s: Servers) {
    GoodServers(s.stun) && GoodServers(s.http) && GoodServers(s.quic) && s.stunGroups == [] && s.keepAliveGroups == []
  }

  ghost predicate ValidDatabase(db: Database, isIPv4: string -> bool) {
    GoodItems(db.items, isIPv4) && GoodLists(db.servers)
  }

  ghost predicate SettledServers(s: Servers) {
    AllSettled(s.stun) && AllSettled(s.http) && AllSettled(s.quic)
  }

  lemma PlainHost(server: ServerEndpoint)
    requires var host := server.host;
             host != "" && Trimmed(host, IsSpace) && Trimmed(host, IsSlash) && host[0] != 'h'
    requires 1 <= server.port <= MAX_PORT
    ensures TrimSpace(server.host) != "" && Settled(server.host)
  {
    hide TrimSpace;
    assert "http://"[0] == 'h' && "https://"[0] == 'h';
  }

  lemma DifferentHosts(a: ServerEndpoint, b: ServerEndpoint)
    requires |a.host| != |b.host|
    ensures !SameEndpoint(a, b)
  {
  }

  lemma DefaultsAreGood()
    ensures GoodLists(DEFAULT_SERVERS) && SettledServers(DEFAULT_SERVERS)
  {
    hide SameEndpoint, Settled, TrimSpace;
    DefaultSTUNServersAreGood();
    var http, quic := DEFAULT_SERVERS.http, DEFAULT_SERVERS.quic;
    DifferentHosts(http[0], http[1]);
    PlainHost(http[0]);
    PlainHost(http[1]);
    PlainHost(quic[0]);
  }

  lemma DefaultSTUNServersAreGood()
    ensures GoodServers(DEFAULT_SERVERS.stun) && AllSettled(DEFAULT_SERVERS.stun)
  {
    hide SameEndpoint, Settled, TrimSpace;
    var stun := DEFAULT_SERVERS.stun;
    PlainHost(stun[0]);
    PlainHost(stun[1]);
    PlainHost(stun[2]);
    PlainHost(stun[3]);
    DifferentHosts(stun[0], stun[1]);
    DifferentHosts(stun[0], stun[2]);
    DifferentHosts(stun[0], stun[3]);
    DifferentHosts(stun[1], stun[2]);
    DifferentFirst(stun[1], stun[3]);
    DifferentHosts(stun[2], stun[3]);
  }

  lemma DifferentFirst(a: ServerEndpoint, b: ServerEndpoint)
    requires a.host != "" && b.host != "" && LowerChar(a.host[0]) != LowerChar(b.host[0])
    ensures !SameEndpoint(a, b)
  {
  }

  // ----- Each operation keeps it

  lemma CheckedIsUsable(s: Servers, config: InstanceConfig, isIPv4: string -> bool)
    requires CheckConfig(s, Normalized(config), isIPv4).None?
    ensures Usable(Normalized(config), isIPv4) && Normalized(config).id == config.id
  {
    NormalizedID(config);
    hide Normalized, ValidateConfig, Usable;
    ValidMeansUsable(config, isIPv4);
  }

  lemma NormalizedID(config: InstanceConfig)
    ensures Normalized(config).id == config.id
  {
  }

  lemma AddKeepsItems(db: Database, config: InstanceConfig, newID: string, isIPv4: string -> bool)
    requires GoodItems(db.items, isIPv4) && newID != "" && Added(db, config, newID, isIPv4).Ok?
    ensures GoodItems(Added(db, config, newID, isIPv4).value.items, isIPv4)
  {
    hide Normalized, CheckConfig, Usable;
    var cfg := if config.id == "" then config.(id := newID) else config;
    CheckedIsUsable(db.servers, cfg, isIPv4);
  }

  lemma UpdateKeepsItems(db: Database, id: string, config: InstanceConfig, isIPv4: string -> bool)
    requires GoodItems(db.items, isIPv4) && Updated(db, id, config, isIPv4).Ok?
    ensures GoodItems(Updated(db, id, config, isIPv4).value.items, isIPv4)
  {
    hide Normalized, CheckConfig, Usable;
    CheckedIsUsable(db.servers, config.(id := id), isIPv4);
  }

  lemma DeleteKeepsItems(db: Database, id: string, isIPv4: string -> bool)
    requires GoodItems(db.items, isIPv4) && Deleted(db, id).Ok?
    ensures GoodItems(Deleted(db, id).value.items, isIPv4)
  {
    hide Usable;
  }

  lemma RegroupKeepsLists(db: Database, groups: Servers, isIPv4: string -> bool)
    requires Regrouped(db, groups, isIPv4).Ok?
    ensures GoodLists(Regrouped(db, groups, isIPv4).value.servers)
  {
    var (stun, http, quic) := Lists(groups);
    AcceptedListIsGood(stun, STUN_PORT, STUN);
    AcceptedListIsGood(http, HTTP_PORT, HTTP);
    AcceptedListIsGood(quic, QUIC_PORT, QUIC);
    hide Lists, ListError, Normalize, GoodServers, FirstBlocker;
  }

  // ----- Restarting

  /** Opening the file of a valid store gives that store back exactly if all its
      hosts are settled. */
  lemma ReopenIsIdentity(db: Database, isIPv4: string -> bool)
    requires ValidDatabase(db, isIPv4)
    ensures Loaded(db) == db <==> SettledServers(db.servers)
  {
    NormalizeGoodList(db.servers.stun, STUN_PORT);
    NormalizeGoodList(db.servers.http, HTTP_PORT);
    NormalizeGoodList(db.servers.quic, QUIC_PORT);
    assert NormalizedItems(db.items) == db.items by {
      hide Normalized;
    }
    hide Normalize, AllSettled, NormalizedItems, Flat, Chosen, GoodItems;
  }

  ghost predicate ReusableServers(s: Servers) {
    Reusable(s.stun) && Reusable(s.http) && Reusable(s.quic)
  }

  /** Opening the file of a valid store gives a valid store, the same or not,
      exactly if its lists are reusable. */
  lemma ReopenIsValid(db: Database, isIPv4: string -> bool)
    requires ValidDatabase(db, isIPv4)
    ensures ValidDatabase(Loaded(db), isIPv4) <==> ReusableServers(db.servers)
  {
    GoodAfterReopening(db.servers.stun, STUN_PORT);
    GoodAfterReopening(db.servers.http, HTTP_PORT);
    GoodAfterReopening(db.servers.quic, QUIC_PORT);
    LoadedParts(db, isIPv4);
    hide GoodItems, GoodServers, Reusable, Normalize, Loaded;
  }

  lemma LoadedParts(db: Database, isIPv4: string -> bool)
    requires ValidDatabase(db, isIPv4)
    ensures var s := db.servers;
            Loaded(db) == Database(Stored(s.stun, s.http, s.quic), db.items, db.runtime)
  {
    hide Normalized, Normalize, Flat, Chosen;
    assert NormalizedItems(db.items) == db.items;
  }

  /** A list that the store accepts can be empty after a restart: its only host
      is no host once it is normalised again, so it is not reusable. Instances in
      group mode then fall back on their own server. */
  lemma AcceptedListCanVanish(isIPv4: string -> bool)
    ensures var bad := [ServerEndpoint("/ http:// /", 3478)];
            var groups := DEFAULT_SERVERS.(stun := bad);
            var next := Regrouped(FRESH, groups, isIPv4);
            && next.Ok? && next.value.servers.stun == [ServerEndpoint(" http:// ", 3478)]
            && Loaded(next.value).servers.stun == []
            && ValidDatabase(next.value, isIPv4) && !ValidDatabase(Loaded(next.value), isIPv4)
  {
    hide Normalize, Regrouped, Loaded, ValidDatabase, ReusableServers, NormalizeHost, TrimSpace;
    var kept := [ServerEndpoint(" http:// ", 3478)];
    HostThatVanishes();
    OneServer(kept[0]);
    BadUpdateIsAccepted(isIPv4);
    var next := FRESH.(servers := DEFAULT_SERVERS.(stun := kept));
    LoadedParts(next, isIPv4);
    ReopenIsValid(next, isIPv4);
    VanishingIsNotReusable(kept, next.servers);
  }

  lemma VanishingIsNotReusable(list: seq<ServerEndpoint>, s: Servers)
    requires |list| == 1 && NormalizeHost(list[0].host) == "" && s.stun == list
    ensures !ReusableServers(s)
  {
    hide NormalizeHost, TrimSpace;
  }

  lemma BadUpdateIsAccepted(isIPv4: string -> bool)
    ensures var groups := DEFAULT_SERVERS.(stun := [ServerEndpoint("/ http:// /", 3478)]);
            var kept := [ServerEndpoint(" http:// ", 3478)];
            && Regrouped(FRESH, groups, isIPv4) == Ok(FRESH.(servers := DEFAULT_SERVERS.(stun := kept)))
            && ValidDatabase(FRESH.(servers := DEFAULT_SERVERS.(stun := kept)), isIPv4)
  {
    hide Normalize, GoodServers, GoodLists, SettledServers, ValidDatabase, Regrouped, StoredLists;
    hide NormalizeHost, TrimSpace;
    var groups := DEFAULT_SERVERS.(stun := [ServerEndpoint("/ http:// /", 3478)]);
    var kept := [ServerEndpoint(" http:// ", 3478)];
    var servers := DEFAULT_SERVERS.(stun := kept);
    HostThatVanishes();
    OneServer(groups.stun[0]);
    OneGoodServer(kept[0]);
    DefaultsAreGood();
    NewStunList(groups, kept);
    OnlyStunChanges(servers);
    FreshIsValid(isIPv4, FRESH);
    RegroupNeedsGoodLists(FRESH, groups, isIPv4);
    RegroupStores(FRESH, groups, isIPv4);
    FreshIsValid(isIPv4, FRESH.(servers := servers));
  }

  lemma NewStunList(groups: Servers, kept: seq<ServerEndpoint>)
    requires GoodLists(DEFAULT_SERVERS) && SettledServers(DEFAULT_SERVERS) && groups.stun != []
    requires groups == DEFAULT_SERVERS.(stun := groups.stun) && Normalize(groups.stun, STUN_PORT) == kept
    ensures StoredLists(groups) == DEFAULT_SERVERS.(stun := kept)
  {
    hide Normalize, GoodServers, Flat, Chosen, AllSettled;
    GoodListsAreLists(DEFAULT_SERVERS);
    NormalizeGoodList(DEFAULT_SERVERS.http, HTTP_PORT);
    NormalizeGoodList(DEFAULT_SERVERS.quic, QUIC_PORT);
  }

  lemma OnlyStunChanges(s: Servers)
    requires GoodLists(DEFAULT_SERVERS) && s == DEFAULT_SERVERS.(stun := s.stun) && GoodServers(s.stun)
    ensures GoodLists(s)
  {
    hide GoodServers;
  }

  lemma RegroupStores(db: Database, groups: Servers, isIPv4: string -> bool)
    requires Regrouped(db, groups, isIPv4).Ok?
    ensures Regrouped(db, groups, isIPv4).value == db.(servers := StoredLists(groups))
  {
    hide StoredLists, ListError, FirstBlocker;
  }

  lemma FreshIsValid(isIPv4: string -> bool, db: Database)
    requires db.items == [] && GoodLists(db.servers)
    ensures ValidDatabase(db, isIPv4)
  {
    hide GoodLists;
  }

  lemma GoodListsAreLists(s: Servers)
    requires GoodServers(s.stun) && GoodServers(s.http) && GoodServers(s.quic)
    ensures s.stun != [] && s.http != [] && s.quic != []
  {
  }

  // ----- All runs

  predicate ProperIDs(ops: seq<Op>) {
    forall k :: 0 <= k < |ops| && ops[k].Add? ==> ops[k].newID != ""
  }

  ghost predicate ValidStores(s: Stores, isIPv4: string -> bool) {
    ValidDatabase(s.db, isIPv4) && ValidDatabase(s.disk, isIPv4)
  }

  lemma StepKeepsValid(s: Stores, op: Op, isIPv4: string -> bool)
    requires ValidStores(s, isIPv4)
    requires op.Add? ==> op.newID != ""
    requires op.Restart? ==> ReusableServers(s.disk.servers)
    ensures ValidStores(Step(s, op, isIPv4), isIPv4)
  {
    hide GoodItems, GoodLists, ToAdd, Normalized, CheckConfig, StoredLists, ListError, FirstBlocker, Loaded;
    hide ReusableServers;
    match op
    case Add(config, newID, _) =>
      if Added(s.db, config, newID, isIPv4).Ok? {
        AddKeepsItems(s.db, config, newID, isIPv4);
      }
    case Update(id, config, _) =>
      if Updated(s.db, id, config, isIPv4).Ok? {
        UpdateKeepsItems(s.db, id, config, isIPv4);
      }
    case Delete(id, _) =>
      if Deleted(s.db, id).Ok? {
        DeleteKeepsItems(s.db, id, isIPv4);
      }
    case Regroup(groups, _) =>
      if Regrouped(s.db, groups, isIPv4).Ok? {
        RegroupKeepsLists(s.db, groups, isIPv4);
      }
    case Restart =>
      ReopenIsValid(s.disk, isIPv4);
    case SaveStatus(_, _, _) =>
    case ClearStatus(_, _) =>
  }

  /** Every restart of the run finds reusable lists in the file. */
  ghost predicate ReusableRestarts(ops: seq<Op>, isIPv4: string -> bool) {
    ops != [] ==>
      var before := ops[..|ops| - 1];
      && ReusableRestarts(before, isIPv4)
      && (ops[|ops| - 1].Restart? ==> ReusableServers(Run(Stores(FRESH, FRESH), before, isIPv4).disk.servers))
  }

  /** Memory and file are valid, now and after every earlier operation. */
  ghost predicate AlwaysValid(ops: seq<Op>, isIPv4: string -> bool) {
    && ValidStores(Run(Stores(FRESH, FRESH), ops, isIPv4), isIPv4)
    && (ops != [] ==> AlwaysValid(ops[..|ops| - 1], isIPv4))
  }

  /** From a fresh store, for every sequence of operations, failed saves and
      restarts: the store and its file are valid all the time if and only if every
      restart finds reusable lists in the file. */
  lemma {:induction false} StoreStaysValid(ops: seq<Op>, isIPv4: string -> bool)
    requires ProperIDs(ops)
    ensures AlwaysValid(ops, isIPv4) <==> ReusableRestarts(ops, isIPv4)
  {
    hide ValidStores, ReusableServers, Step;
    if ops == [] {
      FreshStoresAreValid(isIPv4);
    } else {
      var before, last := ops[..|ops| - 1], ops[|ops| - 1];
      StoreStaysValid(before, isIPv4);
      if AlwaysValid(before, isIPv4) {
        var s := Run(Stores(FRESH, FRESH), before, isIPv4);
        if last.Restart? {
          RestartIsValid(s, isIPv4);
        } else {
          StepKeepsValid(s, last, isIPv4);
        }
      }
    }
  }

  lemma FreshStoresAreValid(isIPv4: string -> bool)
    ensures ValidStores(Stores(FRESH, FRESH), isIPv4)
  {
    DefaultsAreGood();
    hide GoodLists;
    FreshIsValid(isIPv4, FRESH);
  }

  lemma RestartIsValid(s: Stores, isIPv4: string -> bool)
    requires ValidStores(s, isIPv4)
    ensures ValidStores(Step(s, Restart, isIPv4), isIPv4) <==> ReusableServers(s.disk.servers)
  {
    hide ValidDatabase, ReusableServers, Loaded;
    ReopenIsValid(s.disk, isIPv4);
  }

  // ----- Which updates survive any number of restarts

  ghost predicate LastingServers(s: Servers) {
    Lasting(s.stun) && Lasting(s.http) && Lasting(s.quic)
  }

  ghost predicate LastingUpdates(ops: seq<Op>) {
    forall k :: 0 <= k < |ops| && ops[k].Regroup? ==> LastingServers(StoredLists(ops[k].groups))
  }

  /** If the hosts of every update keep something however often they are
      normalised, restarts never do harm. */
  lemma {:induction false} LastingUpdatesSurvive(ops: seq<Op>, isIPv4: string -> bool)
    requires ProperIDs(ops) && LastingUpdates(ops)
    ensures AlwaysValid(ops, isIPv4)
    ensures var s := Run(Stores(FRESH, FRESH), ops, isIPv4);
            LastingServers(s.db.servers) && LastingServers(s.disk.servers)
  {
    hide ValidStores, LastingServers, ReusableServers, Step;
    if ops == [] {
      FreshStoresAreValid(isIPv4);
      DefaultsLast();
    } else {
      var before, last := ops[..|ops| - 1], ops[|ops| - 1];
      LastingUpdatesSurvive(before, isIPv4);
      StoreStaysValid(before, isIPv4);
      StoreStaysValid(ops, isIPv4);
      StepKeepsLasting(Run(Stores(FRESH, FRESH), before, isIPv4), last, isIPv4);
    }
  }

  lemma DefaultsLast()
    ensures LastingServers(DEFAULT_SERVERS)
  {
    DefaultsAreGood();
    hide Settled;
    SettledLasts(DEFAULT_SERVERS.stun);
    SettledLasts(DEFAULT_SERVERS.http);
    SettledLasts(DEFAULT_SERVERS.quic);
  }

  lemma StepKeepsLasting(s: Stores, op: Op, isIPv4: string -> bool)
    requires ValidStores(s, isIPv4) && LastingServers(s.db.servers) && LastingServers(s.disk.servers)
    requires op.Regroup? ==> LastingServers(StoredLists(op.groups))
    ensures var s' := Step(s, op, isIPv4); LastingServers(s'.db.servers) && LastingServers(s'.disk.servers)
    ensures ReusableServers(s.disk.servers)
  {
    hide StoredLists, ListError, FirstBlocker, ToAdd, Normalized, CheckConfig, Loaded, ValidDatabase, LastingServers;
    hide ReusableServers, GoodItems, GoodLists;
    FileLasts(s.disk, isIPv4);
  }

  lemma FileLasts(db: Database, isIPv4: string -> bool)
    requires ValidDatabase(db, isIPv4) && LastingServers(db.servers)
    ensures ReusableServers(db.servers) && LastingServers(Loaded(db).servers)
  {
    LoadedParts(db, isIPv4);
    hide Loaded, GoodItems, GoodServers, Lasting, Reusable, Normalize;
    LastingIsReusable(db.servers.stun, STUN_PORT);
    LastingIsReusable(db.servers.http, HTTP_PORT);
    LastingIsReusable(db.servers.quic, QUIC_PORT);
  }

  // ----- Which stores survive any number of restarts

  /** What n restarts, with nothing else in between, make of a store. */
  function Reloaded(db: Database, n: nat): Database
    decreases n
  {
    if n == 0 then db else Reloaded(Loaded(db), n - 1)
  }

  function DefaultPort(kind: Kind): int {
    match kind case STUN => STUN_PORT case HTTP => HTTP_PORT case QUIC => QUIC_PORT
  }

  ghost predicate ListSurvives(s: Servers, kind: Kind) {
    GoodServers(ListOf(s, kind)) && Survives(ListOf(s, kind), DefaultPort(kind))
  }

  ghost predicate SurvivingServers(s: Servers) {
    forall kind :: ListSurvives(s, kind)
  }

  /** A valid store stays valid through any number of restarts if and only if each
      of its lists passes the check. */
  lemma StaysValidIffSurviving(db: Database, isIPv4: string -> bool)
    requires ValidDatabase(db, isIPv4)
    ensures (forall n: nat :: ValidDatabase(Reloaded(db, n), isIPv4)) <==> SurvivingServers(db.servers)
  {
    hide ValidDatabase, ListSurvives, Loaded;
    if SurvivingServers(db.servers) {
      forall n: nat ensures ValidDatabase(Reloaded(db, n), isIPv4) {
        SurvivingStoreStaysValid(db, isIPv4, n);
      }
    } else {
      var kind :| !ListSurvives(db.servers, kind);
      var n := OtherStoreGoesBad(db, isIPv4, kind);
    }
  }

  /** What one restart does to a list, and to the check of it. */
  lemma ListAfterRestart(db: Database, isIPv4: string -> bool, kind: Kind)
    requires ValidDatabase(db, isIPv4)
    ensures var list, next := ListOf(db.servers, kind), ListOf(Loaded(db).servers, kind);
            && (ListSurvives(db.servers, kind) <==> Reusable(list) && ListSurvives(Loaded(db).servers, kind))
            && (!ListSurvives(db.servers, kind) && Reusable(list) ==>
                  |next| < |list| || (|next| == |list| && HostChars(next) < HostChars(list)))
  {
    LoadedList(db, isIPv4, kind);
    hide Loaded, Survives, GoodServers, Reusable, ValidDatabase, Normalize, HostChars, ListOf, DefaultPort;
    SurvivesStep(ListOf(db.servers, kind), DefaultPort(kind));
  }

  lemma LoadedList(db: Database, isIPv4: string -> bool, kind: Kind)
    requires ValidDatabase(db, isIPv4)
    ensures GoodServers(ListOf(db.servers, kind))
    ensures ListOf(Loaded(db).servers, kind) == Normalize(ListOf(db.servers, kind), DefaultPort(kind))
  {
    LoadedParts(db, isIPv4);
    hide Loaded, GoodServers, GoodItems, Normalize;
  }

  lemma {:induction false} SurvivingStoreStaysValid(db: Database, isIPv4: string -> bool, n: nat)
    requires ValidDatabase(db, isIPv4) && SurvivingServers(db.servers)
    ensures ValidDatabase(Reloaded(db, n), isIPv4)
    decreases n
  {
    hide ValidDatabase, ListSurvives, Loaded, Reusable;
    if n == 0 {
    } else {
      forall kind ensures Reusable(ListOf(db.servers, kind)) && ListSurvives(Loaded(db).servers, kind) {
        ListAfterRestart(db, isIPv4, kind);
      }
      assert Reusable(ListOf(db.servers, STUN)) && Reusable(ListOf(db.servers, HTTP));
      assert Reusable(ListOf(db.servers, QUIC));
      ReopenIsValid(db, isIPv4);
      SurvivingStoreStaysValid(Loaded(db), isIPv4, n - 1);
    }
  }

  lemma {:induction false} OtherStoreGoesBad(db: Database, isIPv4: string -> bool, kind: Kind) returns (n: nat)
    requires ValidDatabase(db, isIPv4) && !ListSurvives(db.servers, kind)
    ensures !ValidDatabase(Reloaded(db, n), isIPv4)
    decreases |ListOf(db.servers, kind)|, HostChars(ListOf(db.servers, kind))
  {
    hide ValidDatabase, ListSurvives, Loaded, Reusable, HostChars;
    ReopenIsValid(db, isIPv4);
    ListAfterRestart(db, isIPv4, kind);
    if !ReusableServers(db.servers) {
      assert Reloaded(Loaded(db), 0) == Loaded(db);
      return 1;
    }
    n := OtherStoreGoesBad(Loaded(db), isIPv4, kind);
    n := n + 1;
  }

  // ----- What runners get

  /** Every instance of a valid store has servers to probe and to keep alive, all
      with a host and a port; in group mode they are exactly the shared lists.
      Its runner has a port picker. */
  lemma RunnersAreServed(db: Database, isIPv4: string -> bool, k: nat)
    requires ValidDatabase(db, isIPv4) && k < |db.items|
    ensures var r := Resolve(db.servers, db.items[k]);
            var c := db.items[k];
            && r.config == c
            && GoodServers(StunServers(r)) && GoodServers(KeepAliveServers(r))
            && (c.stunMode == "group" ==> StunServers(r) == db.servers.stun)
            && (c.keepAliveMode == "group" ==> KeepAliveServers(r) == ListOf(db.servers, KeepAliveKind(c)))
            && (c.stunMode == "custom" ==>
                  StunServers(r) == [ServerEndpoint(if c.stunHost == "" then "turn.cloudflare.com" else c.stunHost,
                                                    if c.stunPort == 0 then 3478 else c.stunPort)])
            && (c.keepAliveMode == "custom" ==> KeepAliveServers(r) == [ServerEndpoint(c.httpHost, c.httpPort)])
            && NewPortPicker(r.config.bindPort).Ok?
  {
    hide Normalized, TrimSpace, NewPortPicker, GoodServers;
    var c := db.items[k];
    assert Usable(c, isIPv4);
    hide GoodItems;
    NormalizedHostText(c);
    assert Trimmed("turn.cloudflare.com", IsSpace);
    GoodListsAreLists(db.servers);
    var r := Resolve(db.servers, c);
    if c.stunMode == "custom" {
      OneGoodServer(StunServers(r)[0]);
    }
    if c.keepAliveMode == "custom" {
      OneGoodServer(KeepAliveServers(r)[0]);
    }
  }

  lemma NormalizedHostText(c: InstanceConfig)
    requires Normalized(c) == c
    ensures TrimSpace(c.stunHost) == c.stunHost
  {
    hide TrimSpace, ToLower, Or;
  }

  lemma OneGoodServer(server: ServerEndpoint)
    requires TrimSpace(server.host) != "" && 1 <= server.port <= MAX_PORT
    ensures GoodServers([server])
  {
  }

  // ----- When operations succeed

  /** The configuration can be used with these lists. */
  ghost predicate Acceptable(s: Servers, c: InstanceConfig, isIPv4: string -> bool) {
    Usable(c, isIPv4) && ListsPresent(s, c)
  }

  lemma CheckMeans(s: Servers, config: InstanceConfig, isIPv4: string -> bool)
    ensures var c := Normalized(config);
            var error := CheckConfig(s, c, isIPv4);
            && (error.None? <==> Acceptable(s, c, isIPv4))
            && (forall e :: error == Some(Invalid(e)) <==> ValidateConfig(c, isIPv4) == Some(e))
            && (error == Some(ListNotAvailable(STUN)) <==> Usable(c, isIPv4) && c.stunMode == "group" && s.stun == [])
            && (error.Some? && !error.value.Invalid? && error != Some(ListNotAvailable(STUN)) ==>
                  error == Some(ListNotAvailable(if c.protocol == "udp" then QUIC else HTTP)))
  {
    hide Normalized, ValidateConfig, Usable;
    ValidMeansUsable(config, isIPv4);
  }

  /** An addition succeeds exactly if the normal form can be used and no instance
      has its ID; a configuration that cannot be used is refused before the ID is
      looked at. */
  lemma AddOutcome(db: Database, config: InstanceConfig, newID: string, isIPv4: string -> bool)
    ensures var c, r := ToAdd(config, newID), Added(db, config, newID, isIPv4);
            var taken := exists i :: 0 <= i < |db.items| && db.items[i].id == c.id;
            && c.id == (if config.id == "" then newID else config.id)
            && (r.Ok? <==> Acceptable(db.servers, c, isIPv4) && !taken)
            && (r == Err(AlreadyExists) <==> Acceptable(db.servers, c, isIPv4) && taken)
            && (r.Err? && r.error != AlreadyExists ==> CheckConfig(db.servers, c, isIPv4) == Some(r.error))
            && (r.Ok? ==> r.value == db.(items := db.items + [c]))
  {
    var given := if config.id == "" then config.(id := newID) else config;
    NormalizedID(given);
    CheckMeans(db.servers, given, isIPv4);
    hide Normalized, Acceptable;
    CheckErrors(db.servers, Normalized(given), isIPv4);
    hide CheckConfig;
  }

  lemma CheckErrors(s: Servers, c: InstanceConfig, isIPv4: string -> bool)
    ensures var error := CheckConfig(s, c, isIPv4);
            error.Some? ==> error.value.Invalid? || error.value.ListNotAvailable?
  {
  }

  /** An update keeps every instance but the one with the ID, which it replaces. */
  lemma UpdateOutcome(db: Database, id: string, config: InstanceConfig, isIPv4: string -> bool)
    ensures var c, r := Normalized(config.(id := id)), Updated(db, id, config, isIPv4);
            var known := exists i :: 0 <= i < |db.items| && db.items[i].id == id;
            && c.id == id
            && (r.Ok? <==> Acceptable(db.servers, c, isIPv4) && known)
            && (r == Err(NotExist) <==> Acceptable(db.servers, c, isIPv4) && !known)
            && (r.Err? && r.error != NotExist ==> CheckConfig(db.servers, c, isIPv4) == Some(r.error))
            && (r.Ok? ==>
                  && r.value == db.(items := r.value.items) && |r.value.items| == |db.items|
                  && forall i :: 0 <= i < |db.items| ==>
                       r.value.items[i] == db.items[i] ||
                       (r.value.items[i] == c && db.items[i].id == id &&
                        forall j :: 0 <= j < i ==> db.items[j].id != id))
  {
    NormalizedID(config.(id := id));
    CheckMeans(db.servers, config.(id := id), isIPv4);
    hide Normalized, Acceptable;
    CheckErrors(db.servers, Normalized(config.(id := id)), isIPv4);
    hide CheckConfig;
  }

  lemma DeleteOutcome(db: Database, id: string)
    ensures var r := Deleted(db, id);
            && (r.Ok? <==> exists i :: 0 <= i < |db.items| && db.items[i].id == id)
            && (r.Err? ==> r.error == NotExist)
  {
  }

  // ----- Instances read what was written

  lemma FindByIndex(items: seq<InstanceConfig>, id: string, i: nat)
    requires i < |items| && items[i].id == id && forall j :: 0 <= j < i ==> items[j].id != id
    ensures IndexOfID(items, id) == i
  {
  }

  /** After an instance is added, it is found, and nothing else has changed. */
  lemma FindAfterAdd(db: Database, config: InstanceConfig, newID: string, isIPv4: string -> bool, id: string)
    requires Added(db, config, newID, isIPv4).Ok?
    ensures var c := ToAdd(config, newID);
            Find(Added(db, config, newID, isIPv4).value, id) ==
            if id == c.id then Some(Resolve(db.servers, c)) else Find(db, id)
  {
    hide Normalized, CheckConfig, Resolve, ToAdd;
    var items := Added(db, config, newID, isIPv4).value.items;
    if id == ToAdd(config, newID).id {
      FindByIndex(items, id, |db.items|);
    } else if IndexOfID(db.items, id) < |db.items| {
      FindByIndex(items, id, IndexOfID(db.items, id));
    } else {
      assert forall j :: 0 <= j < |items| ==> items[j].id != id;
    }
  }

  /** After an instance is updated, it is found as updated, and nothing else has changed. */
  lemma FindAfterUpdate(db: Database, key: string, config: InstanceConfig, isIPv4: string -> bool, id: string)
    requires Updated(db, key, config, isIPv4).Ok?
    ensures Find(Updated(db, key, config, isIPv4).value, id) ==
            if id == key then Some(Resolve(db.servers, Normalized(config.(id := key)))) else Find(db, id)
  {
    hide Normalized, CheckConfig, Resolve;
    NormalizedID(config.(id := key));
    var items := Updated(db, key, config, isIPv4).value.items;
    var i := IndexOfID(db.items, id);
    assert forall j :: 0 <= j < |items| ==> items[j].id == db.items[j].id;
    if i < |db.items| {
      FindByIndex(items, id, i);
    } else {
      assert forall j :: 0 <= j < |items| ==> items[j].id != id;
    }
  }

  /** After an instance is deleted from a valid store, it is not found, its stored
      mapping is gone, and nothing else has changed. */
  lemma FindAfterDelete(db: Database, key: string, isIPv4: string -> bool, id: string)
    requires ValidDatabase(db, isIPv4) && Deleted(db, key).Ok?
    ensures var after := Deleted(db, key).value;
            && Find(after, id) == (if id == key then None else Find(db, id))
            && after.runtime == db.runtime - {key} && after.servers == db.servers
  {
    hide Deleted, IndexOfID, Resolve, ValidDatabase, Without;
    DeletedParts(db, key);
    IndexAfterDelete(db, key, isIPv4, id);
  }

  lemma IndexAfterDelete(db: Database, key: string, isIPv4: string -> bool, id: string)
    requires ValidDatabase(db, isIPv4) && Deleted(db, key).Ok?
    ensures var items := Deleted(db, key).value.items;
            var i, j := IndexOfID(db.items, id), IndexOfID(items, id);
            if id == key || i == |db.items| then j == |items| else j < |items| && items[j] == db.items[i]
  {
    DistinctIDs(db, isIPv4);
    DeletedParts(db, key);
    hide Deleted, IndexOfID, ValidDatabase, UniqueIDs, Without;
    IndexAfterRemoval(db.items, IndexOfID(db.items, key), id);
  }

  function Without(items: seq<InstanceConfig>, k: nat): seq<InstanceConfig>
    requires k < |items|
    ensures |Without(items, k)| == |items| - 1
  {
    items[..k] + items[k + 1..]
  }

  lemma DeletedParts(db: Database, key: string)
    requires Deleted(db, key).Ok?
    ensures var k := IndexOfID(db.items, key);
            && k < |db.items|
            && Deleted(db, key).value ==
               db.(items := Without(db.items, k), runtime := db.runtime - {key})
  {
  }

  lemma DistinctIDs(db: Database, isIPv4: string -> bool)
    requires ValidDatabase(db, isIPv4)
    ensures UniqueIDs(db.items)
  {
    hide Usable;
  }

  lemma IndexAfterRemoval(items: seq<InstanceConfig>, k: nat, id: string)
    requires k < |items| && UniqueIDs(items)
    ensures var after, i := Without(items, k), IndexOfID(items, id);
            if id == items[k].id || i == |items| then IndexOfID(after, id) == |after|
            else
              var j := if i < k then i else i - 1;
              j < |after| && IndexOfID(after, id) == j && after[j] == items[i]
  {
    hide Without, IndexOfID, UniqueIDs;
    if id == items[k].id || IndexOfID(items, id) == |items| {
      RemovedIsGone(items, k, id);
    } else {
      OtherMoves(items, k, id);
    }
  }

  lemma RemovedIsGone(items: seq<InstanceConfig>, k: nat, id: string)
    requires k < |items| && UniqueIDs(items) && (id == items[k].id || IndexOfID(items, id) == |items|)
    ensures IndexOfID(Without(items, k), id) == |Without(items, k)|
  {
    hide IndexOfID, Without;
    var after := Without(items, k);
    var j := IndexOfID(after, id);
    if j < |after| {
      WithoutAt(items, k, j);
    }
  }

  lemma OtherMoves(items: seq<InstanceConfig>, k: nat, id: string)
    requires var i := IndexOfID(items, id); k < |items| && i < |items| && items[k].id != id
    ensures var after, i := Without(items, k), IndexOfID(items, id);
            var j := if i < k then i else i - 1;
            j < |after| && IndexOfID(after, id) == j && after[j] == items[i]
  {
    hide IndexOfID, Without;
    var after, i := Without(items, k), IndexOfID(items, id);
    var j := if i < k then i else i - 1;
    WithoutAt(items, k, j);
    forall m | 0 <= m < j ensures after[m].id != id {
      WithoutAt(items, k, m);
    }
    FindByIndex(after, id, j);
  }

  lemma WithoutAt(items: seq<InstanceConfig>, k: nat, j: nat)
    requires k < |items| && j < |items| - 1
    ensures Without(items, k)[j] == items[if j < k then j else j + 1]
  {
  }

  // ----- Updates of the server lists

  lemma {:induction false} UsableNeverBlocks(items: seq<InstanceConfig>, s: Servers, isIPv4: string -> bool)
    requires GoodLists(s) && forall i :: 0 <= i < |items| ==> Usable(items[i], isIPv4)
    ensures FirstBlocker(items, s, isIPv4).None?
  {
    hide CheckConfig, Usable, Normalized, GoodLists;
    if items == [] {
    } else {
      var head, rest := items[0], items[1..];
      assert Usable(head, isIPv4);
      UsablePasses(head, s, isIPv4);
      assert forall i :: 0 <= i < |rest| ==> rest[i] == items[i + 1];
      UsableNeverBlocks(rest, s, isIPv4);
    }
  }

  lemma UsablePasses(c: InstanceConfig, s: Servers, isIPv4: string -> bool)
    requires GoodLists(s) && Usable(c, isIPv4)
    ensures CheckConfig(s, Normalized(c), isIPv4).None?
  {
    hide Normalized, NewPortPicker, TrimSpace, GoodServers;
    GoodListsAreLists(s);
    assert Normalized(c) == c;
    hide ValidateConfig;
    ValidMeansUsable(c, isIPv4);
  }

  /** In a valid store, no instance ever blocks an update: it succeeds exactly if
      all three lists are good. */
  lemma RegroupNeedsGoodLists(db: Database, groups: Servers, isIPv4: string -> bool)
    requires ValidDatabase(db, isIPv4)
    ensures Regrouped(db, groups, isIPv4).Ok? <==> GoodLists(StoredLists(groups))
  {
    var (stun, http, quic) := Lists(groups);
    AcceptedListIsGood(stun, STUN_PORT, STUN);
    AcceptedListIsGood(http, HTTP_PORT, HTTP);
    AcceptedListIsGood(quic, QUIC_PORT, QUIC);
    hide Lists, ListError, Normalize, GoodServers, FirstBlocker, Usable;
    if GoodLists(StoredLists(groups)) {
      UsableNeverBlocks(db.items, StoredLists(groups), isIPv4);
    }
  }

  // ----- Failed saves

  predicate Touches(op: Op, id: string) {
    (op.Update? || op.Delete?) && op.id == id
  }

  /** Operations without a restart, none of which updates or deletes the instance. */
  predicate LeaveAlone(ops: seq<Op>, id: string) {
    ProperIDs(ops) && forall k :: 0 <= k < |ops| ==> !ops[k].Restart? && !Touches(ops[k], id)
  }

  lemma {:induction false} InstanceStays(s: Stores, c: InstanceConfig, ops: seq<Op>, isIPv4: string -> bool)
    requires ValidStores(s, isIPv4) && c in s.db.items && LeaveAlone(ops, c.id)
    ensures var s' := Run(s, ops, isIPv4); ValidStores(s', isIPv4) && c in s'.db.items
  {
    hide ValidStores, Step;
    if ops == [] {
    } else {
      var before, last := ops[..|ops| - 1], ops[|ops| - 1];
      InstanceStays(s, c, before, isIPv4);
      var mid := Run(s, before, isIPv4);
      StepKeepsValid(mid, last, isIPv4);
      StepLeavesAlone(mid, c, last, isIPv4);
    }
  }

  lemma StepLeavesAlone(s: Stores, c: InstanceConfig, op: Op, isIPv4: string -> bool)
    requires c in s.db.items && !op.Restart? && !Touches(op, c.id)
    ensures c in Step(s, op, isIPv4).db.items
  {
    hide ToAdd, Normalized, CheckConfig, StoredLists, ListError, FirstBlocker;
    var items := s.db.items;
    var k :| 0 <= k < |items| && items[k] == c;
    var i := if op.Update? || op.Delete? then IndexOfID(items, op.id) else 0;
    match op
    case Update(id, config, _) =>
      if i < |items| {
        assert items[i := Normalized(config.(id := id))][k] == c;
      }
    case Delete(id, _) =>
      if i < |items| {
        assert k < i ==> (items[..i] + items[i + 1..])[k] == c;
        assert k > i ==> (items[..i] + items[i + 1..])[k - 1] == c;
      }
    case _ =>
  }

  lemma FindMember(db: Database, c: InstanceConfig, isIPv4: string -> bool)
    requires ValidDatabase(db, isIPv4) && c in db.items
    ensures Find(db, c.id) == Some(Resolve(db.servers, c)) && IndexOfID(db.items, c.id) < |db.items|
    ensures CheckConfig(db.servers, c, isIPv4).None? && Normalized(c) == c
  {
    var k :| 0 <= k < |db.items| && db.items[k] == c;
    assert Usable(c, isIPv4);
    UsablePasses(c, db.servers, isIPv4);
    assert Normalized(c) == c by {
      hide Normalized;
    }
    hide Usable, Normalized, CheckConfig, Resolve, GoodLists;
    FindByIndex(db.items, c.id, k);
  }

  /** An instance whose addition failed only in saving is there all the same.
      Whatever operations follow, as long as none updates or deletes it: adding it
      again is refused, it is found, and from the next operation that is saved on
      it is in the file. */
  lemma FailedAddTakesEffect(s: Stores, config: InstanceConfig, newID: string, ops: seq<Op>, isIPv4: string -> bool)
    requires ValidStores(s, isIPv4) && Added(s.db, config, newID, isIPv4).Ok? && newID != ""
    requires LeaveAlone(ops, ToAdd(config, newID).id)
    ensures var failed := Step(s, Add(config, newID, false), isIPv4);
            var s' := Run(failed, ops, isIPv4);
            var c := ToAdd(config, newID);
            && Failure(Added(s.db, config, newID, isIPv4), false) == Some(NotSaved) && failed.disk == s.disk
            && (config.id != "" ==> Added(s'.db, config, newID, isIPv4) == Err(AlreadyExists))
            && Find(s'.db, c.id) == Some(Resolve(s'.db.servers, c))
            && (ops != [] && Writes(Run(failed, ops[..|ops| - 1], isIPv4), ops[|ops| - 1], isIPv4) ==>
                  s'.disk == s'.db && Find(s'.disk, c.id) == Some(Resolve(s'.db.servers, c)))
  {
    hide ToAdd, Normalized, CheckConfig, ValidDatabase, Resolve;
    var c := ToAdd(config, newID);
    var failed := Step(s, Add(config, newID, false), isIPv4);
    StepKeepsValid(s, Add(config, newID, false), isIPv4);
    InstanceStays(failed, c, ops, isIPv4);
    FindMember(Run(failed, ops, isIPv4).db, c, isIPv4);
  }

  /** The operation ends without an error and has written the file. */
  predicate Writes(s: Stores, op: Op, isIPv4: string -> bool) {
    !op.Restart? && !Idle(s.db, op, isIPv4) && Failure(Attempt(s.db, op, isIPv4), op.written).None?
  }
}
