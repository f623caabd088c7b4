/** The store of configurations and server lists, and what runners get from it. */
module Store {
  import opened Configs
  import opened Endpoints
  import opened Net
  import opened Pbkdf2
  import opened Persistence
  import opened Ports
  import opened Rotation
  import opened Status
  import opened Text
  import opened Wrappers

  const STUN_PORT := 3478
  const HTTP_PORT := 80
  const QUIC_PORT := 443

  datatype ServerGroup = ServerGroup(id: string, name: string, servers: seq<ServerEndpoint>)

  /** The server lists, and the groups of older files that they replace. */
  datatype Servers = Servers(
    stun: seq<ServerEndpoint>, http: seq<ServerEndpoint>, quic: seq<ServerEndpoint>,
    stunGroups: seq<ServerGroup>, keepAliveGroups: seq<ServerGroup>)

  datatype Database = Database(servers: Servers, items: seq<InstanceConfig>, runtime: map<string, PersistedStatus>)

  datatype Kind = STUN | HTTP | QUIC

  datatype StoreError =
    | Invalid(config: ConfigError) | ListNotAvailable(kind: Kind) | AlreadyExists | NotExist
    | NoServer(kind: Kind) | NoHost(kind: Kind) | BadPort(kind: Kind) | NotSaved

  const DEFAULT_SERVERS := Servers(
    [ServerEndpoint("stun.miwifi.com", 3478), ServerEndpoint("stun.cloudflare.com", 3478),
     ServerEndpoint("stun.l.google.com", 19302), ServerEndpoint("turn.cloudflare.com", 3478)],
    [ServerEndpoint("qq.com", 80), ServerEndpoint("223.5.5.5", 80)],
    [ServerEndpoint("zhuanlan.zhihu.com", 443)], [], [])

  const FRESH := Database(DEFAULT_SERVERS, [], map[])

  // ----- Server lists

  /** strings.Contains */
  predicate Contains(s: string, word: string) {
    exists i :: 0 <= i <= |s| && word <= s[i..]
  }

  predicate ForQUIC(group: ServerGroup) {
    var key := ToLower(group.id + " " + group.name);
    Contains(key, "quic") || Contains(key, "udp")
  }

  lemma ContainsMeans(before: string, word: string, after: string)
    ensures Contains(before + word + after, word)
  {
    assert (before + word + after)[|before|..] == word + after;
  }

  lemma ContainedAt(s: string, word: string) returns (before: string, after: string)
    requires Contains(s, word)
    ensures s == before + word + after
  {
    var i :| 0 <= i <= |s| && word <= s[i..];
    before, after := s[..i], s[i..][|word|..];
  }

  /** A word without blanks in two texts with a blank between is in one of them. */
  lemma WordInOneText(a: string, b: string, word: string)
    requires ' ' !in word && word != ""
    ensures Contains(a + " " + b, word) <==> Contains(a, word) || Contains(b, word)
  {
    var s := a + " " + b;
    if Contains(a, word) {
      var before, after := ContainedAt(a, word);
      ContainsMeans(before, word, after + " " + b);
      assert s == before + word + (after + " " + b);
    }
    if Contains(b, word) {
      var before, after := ContainedAt(b, word);
      ContainsMeans(a + " " + before, word, after);
      assert s == (a + " " + before) + word + after;
    }
    if Contains(s, word) {
      WordBeforeOrAfter(a, b, word);
    }
  }

  lemma WordBeforeOrAfter(a: string, b: string, word: string)
    requires ' ' !in word && word != "" && Contains(a + " " + b, word)
    ensures Contains(a, word) || Contains(b, word)
  {
    var s := a + " " + b;
    var before, after := ContainedAt(s, word);
    assert forall k :: 0 <= k < |word| ==> s[|before| + k] == word[k];
    assert s[|a|] == ' ';
    assert !(|before| <= |a| < |before| + |word|);
    if |before| + |word| <= |a| {
      var rest := a[|before| + |word|..];
      assert s[..|before|] == before && s[|before|..|before| + |word|] == word;
      assert a[..|before|] == s[..|before|] && a[|before|..|before| + |word|] == s[|before|..|before| + |word|];
      assert a == a[..|before|] + a[|before|..|before| + |word|] + rest;
      ContainsMeans(before, word, rest);
    } else {
      var k := |before| - |a| - 1;
      assert s[|before|..|before| + |word|] == word;
      assert b[k..k + |word|] == s[|before|..|before| + |word|];
      assert b == b[..k] + b[k..k + |word|] + b[k + |word|..];
      ContainsMeans(b[..k], word, b[k + |word|..]);
    }
  }

  /** A group is for QUIC if its ID or its name has "quic" or "udp" in it, in any case. */
  lemma WhichGroupsAreForQUIC(group: ServerGroup)
    ensures ForQUIC(group) <==>
            || Contains(ToLower(group.id), "quic") || Contains(ToLower(group.name), "quic")
            || Contains(ToLower(group.id), "udp") || Contains(ToLower(group.name), "udp")
  {
    var id, name := ToLower(group.id), ToLower(group.name);
    assert ToLower(group.id + " " + group.name) == id + " " + name;
    WordInOneText(id, name, "quic");
    WordInOneText(id, name, "udp");
    hide Contains, ToLower;
  }

  /** The lists of the keep-alive groups that serve one protocol. */
  function Chosen(groups: seq<ServerGroup>, quic: bool): seq<seq<ServerEndpoint>> {
    if groups == [] then []
    else
      var n := |groups| - 1;
      Chosen(groups[..n], quic) + if ForQUIC(groups[n]) == quic then [groups[n].servers] else []
  }

  function ListsOf(groups: seq<ServerGroup>): seq<seq<ServerEndpoint>> {
    seq(|groups|, i requires 0 <= i < |groups| => groups[i].servers)
  }

  lemma ChosenExtends(groups: seq<ServerGroup>, quic: bool, i: nat)
    requires i < |groups|
    ensures Chosen(groups[..i + 1], quic) ==
            if ForQUIC(groups[i]) == quic then Chosen(groups[..i], quic) + [groups[i].servers]
            else Chosen(groups[..i], quic)
  {
    assert groups[..i + 1][..i] == groups[..i];
  }

  lemma FlatExtends(lists: seq<seq<ServerEndpoint>>, list: seq<ServerEndpoint>, defaultPort: int)
    ensures Flat(lists + [list], defaultPort) == Flat(lists, defaultPort) + Normalize(list, defaultPort)
  {
  }

  /** legacyKeepAliveServers */
  method LegacyKeepAliveServers(groups: seq<ServerGroup>, quic: bool) returns (out: seq<ServerEndpoint>)
    ensures var port := if quic then QUIC_PORT else HTTP_PORT;
            out == Normalize(Flat(Chosen(groups, quic), port), port)
  {
    hide Normalize, ForQUIC;
    out := [];
    var defaultPort := if quic then QUIC_PORT else HTTP_PORT;
    for i := 0 to |groups|
      invariant out == Flat(Chosen(groups[..i], quic), defaultPort)
    {
      ChosenExtends(groups, quic, i);
      if ForQUIC(groups[i]) != quic {
        continue;
      }
      FlatExtends(Chosen(groups[..i], quic), groups[i].servers, defaultPort);
      var servers := NormalizeServerEndpoints(groups[i].servers, defaultPort);
      out := out + servers;
    }
    assert groups[..|groups|] == groups;
    out := NormalizeServerEndpoints(out, defaultPort);
  }

  /** The lists of an update, before the last normalisation: a list that is empty
      is taken from the groups. */
  function Lists(s: Servers): (seq<ServerEndpoint>, seq<ServerEndpoint>, seq<ServerEndpoint>) {
    (if s.stun == [] then Normalize(Flat(ListsOf(s.stunGroups), STUN_PORT), STUN_PORT) else s.stun,
     if s.http == [] then Normalize(Flat(Chosen(s.keepAliveGroups, false), HTTP_PORT), HTTP_PORT) else s.http,
     if s.quic == [] then Normalize(Flat(Chosen(s.keepAliveGroups, true), QUIC_PORT), QUIC_PORT) else s.quic)
  }

  /** A list that is left out comes from the legacy groups: those for HTTP and those
      for QUIC apart, with the port of their kind. */
  lemma LegacyLists(s: Servers)
    ensures s.stun != [] ==> Lists(s).0 == s.stun
    ensures s.http != [] ==> Lists(s).1 == s.http
    ensures s.quic != [] ==> Lists(s).2 == s.quic
    ensures s.stun == [] ==> Lists(s).0 == Normalize(Flat(ListsOf(s.stunGroups), 3478), 3478)
    ensures s.http == [] ==> Lists(s).1 == Normalize(Flat(Chosen(s.keepAliveGroups, false), 80), 80)
    ensures s.quic == [] ==> Lists(s).2 == Normalize(Flat(Chosen(s.keepAliveGroups, true), 443), 443)
  {
    hide Normalize, Flat, Chosen;
  }

  /** The lists chosen are those of exactly the groups for the protocol. */
  lemma {:induction false} ChosenAre(groups: seq<ServerGroup>, quic: bool, list: seq<ServerEndpoint>)
    ensures list in Chosen(groups, quic) <==>
            exists i :: 0 <= i < |groups| && ForQUIC(groups[i]) == quic && groups[i].servers == list
  {
    hide ForQUIC;
    if groups == [] {
    } else {
      var n := |groups| - 1;
      ChosenAre(groups[..n], quic, list);
      assert groups == groups[..n] + [groups[n]];
    }
  }

  lemma NoGroupsNoServers()
    ensures forall quic, port :: Normalize(Flat(Chosen([], quic), port), port) == []
    ensures forall port :: Normalize(Flat(ListsOf([]), port), port) == []
  {
  }

  /** The lists as they are stored. */
  function Stored(stun: seq<ServerEndpoint>, http: seq<ServerEndpoint>, quic: seq<ServerEndpoint>): Servers {
    Servers(Normalize(stun, STUN_PORT), Normalize(http, HTTP_PORT), Normalize(quic, QUIC_PORT), [], [])
  }

  /** The default port of each kind of server. */
  lemma DefaultPorts(stun: seq<ServerEndpoint>, http: seq<ServerEndpoint>, quic: seq<ServerEndpoint>)
    ensures Stored(stun, http, quic) ==
            Servers(Normalize(stun, 3478), Normalize(http, 80), Normalize(quic, 443), [], [])
  {
    hide Normalize;
  }

  /** The lists that an update stores if it is accepted. */
  function StoredLists(groups: Servers): Servers {
    var (stun, http, quic) := Lists(groups);
    Stored(stun, http, quic)
  }

  /** The first reason to refuse a server. */
  function Refusal(server: ServerEndpoint, kind: Kind): Option<StoreError> {
    if TrimSpace(server.host) == "" then Some(NoHost(kind))
    else if server.port <= 0 || server.port > MAX_PORT then Some(BadPort(kind))
    else None
  }

  /** A list that a runner can use. */
  ghost predicate GoodServers(servers: seq<ServerEndpoint>) {
    && servers != [] && DuplicateFree(servers)
    && forall i :: 0 <= i < |servers| ==> TrimSpace(servers[i].host) != "" && 1 <= servers[i].port <= MAX_PORT
  }

  /** validateServerEndpoints */
  method ValidateServerEndpoints(servers: seq<ServerEndpoint>, kind: Kind) returns (error: Option<StoreError>)
    ensures error == ListError(servers, kind)
  {
    hide Refusal;
    if servers == [] {
      return Some(NoServer(kind));
    }
    for i := 0 to |servers|
      invariant forall j :: 0 <= j < i ==> Refusal(servers[j], kind).None?
    {
      error := Refusal(servers[i], kind);
      if error.Some? {
        FirstErrorAt(servers, kind, i);
        return;
      }
    }
    if FirstError(servers, kind).Some? {
      var j := FirstErrorExists(servers, kind);
    }
    error := None;
  }

  function FirstError(servers: seq<ServerEndpoint>, kind: Kind): Option<StoreError> {
    if servers == [] then None
    else if Refusal(servers[0], kind).Some? then Refusal(servers[0], kind)
    else FirstError(servers[1..], kind)
  }

  function ListError(servers: seq<ServerEndpoint>, kind: Kind): Option<StoreError> {
    if servers == [] then Some(NoServer(kind)) else FirstError(servers, kind)
  }

  lemma {:induction false} FirstErrorAt(servers: seq<ServerEndpoint>, kind: Kind, i: nat)
    requires i < |servers| && Refusal(servers[i], kind).Some?
    requires forall j :: 0 <= j < i ==> Refusal(servers[j], kind).None?
    ensures FirstError(servers, kind) == Refusal(servers[i], kind)
  {
    hide Refusal;
    if i == 0 {
    } else {
      FirstErrorAt(servers[1..], kind, i - 1);
    }
  }

  lemma {:induction false} FirstErrorExists(servers: seq<ServerEndpoint>, kind: Kind) returns (i: nat)
    requires FirstError(servers, kind).Some?
    ensures i < |servers| && Refusal(servers[i], kind) == FirstError(servers, kind)
  {
    hide Refusal;
    if Refusal(servers[0], kind).Some? {
      i := 0;
    } else {
      i := FirstErrorExists(servers[1..], kind);
      assert servers[1..][i] == servers[i + 1];
      i := i + 1;
    }
  }

  /** A list that was normalised and accepted is one that runners can use. */
  lemma AcceptedListIsGood(servers: seq<ServerEndpoint>, defaultPort: int, kind: Kind)
    ensures var list := Normalize(servers, defaultPort); ListError(list, kind).None? <==> GoodServers(list)
  {
    var list := Normalize(servers, defaultPort);
    NormalizedList(CleanAll(servers, defaultPort), |servers|);
    hide *;
    ErrorFreeIsGood(list, kind);
  }

  lemma ErrorFreeIsGood(list: seq<ServerEndpoint>, kind: Kind)
    requires DuplicateFree(list)
    ensures ListError(list, kind).None? <==> GoodServers(list)
  {
    hide TrimSpace, DuplicateFree;
    if ListError(list, kind).None? {
      forall i | 0 <= i < |list| ensures Refusal(list[i], kind).None? {
        NoErrorNoRefusal(list, kind, i);
      }
    } else if list != [] {
      var i := FirstErrorExists(list, kind);
    }
  }

  lemma {:induction false} NoErrorNoRefusal(servers: seq<ServerEndpoint>, kind: Kind, i: nat)
    requires FirstError(servers, kind).None? && i < |servers|
    ensures Refusal(servers[i], kind).None?
  {
    hide Refusal;
    if i == 0 {
    } else {
      NoErrorNoRefusal(servers[1..], kind, i - 1);
    }
  }

  // ----- The operations, as functions

  /** The list that an instance in group mode uses to keep alive. */
  function KeepAliveKind(c: InstanceConfig): Kind {
    if c.protocol == "udp" then QUIC else HTTP
  }

  function ListOf(s: Servers, kind: Kind): seq<ServerEndpoint> {
    match kind case STUN => s.stun case HTTP => s.http case QUIC => s.quic
  }

  /** validateConfigLocked */
  function CheckConfig(s: Servers, c: InstanceConfig, isIPv4: string -> bool): Option<StoreError> {
    match ValidateConfig(c, isIPv4)
    case Some(e) => Some(Invalid(e))
    case None =>
      if c.stunMode == "group" && s.stun == [] then Some(ListNotAvailable(STUN))
      else if c.keepAliveMode == "group" && ListOf(s, KeepAliveKind(c)) == [] then
        Some(ListNotAvailable(KeepAliveKind(c)))
      else None
  }

  /** The shared lists that a configuration refers to are not empty. */
  predicate ListsPresent(s: Servers, c: InstanceConfig) {
    && (c.stunMode == "group" ==> s.stun != [])
    && (c.keepAliveMode == "group" ==> ListOf(s, KeepAliveKind(c)) != [])
  }

  /** The first instance with an ID, or the number of instances. */
  function IndexOfID(items: seq<InstanceConfig>, id: string): (i: nat)
    ensures i <= |items| && (i < |items| ==> items[i].id == id)
    ensures forall j :: 0 <= j < i ==> items[j].id != id
  {
    if items == [] || items[0].id == id then 0 else 1 + IndexOfID(items[1..], id)
  }

  function ToAdd(cfg: InstanceConfig, newID: string): InstanceConfig {
    Normalized(if cfg.id == "" then cfg.(id := newID) else cfg)
  }

  function Added(db: Database, cfg: InstanceConfig, newID: string, isIPv4: string -> bool)
    : Result<Database, StoreError>
  {
    var c := ToAdd(cfg, newID);
    var error := CheckConfig(db.servers, c, isIPv4);
    if error.Some? then Err(error.value)
    else if IndexOfID(db.items, c.id) < |db.items| then Err(AlreadyExists)
    else Ok(db.(items := db.items + [c]))
  }

  function Updated(db: Database, id: string, cfg: InstanceConfig, isIPv4: string -> bool)
    : Result<Database, StoreError>
  {
    var c := Normalized(cfg.(id := id));
    var error := CheckConfig(db.servers, c, isIPv4);
    var i := IndexOfID(db.items, id);
    if error.Some? then Err(error.value)
    else if i == |db.items| then Err(NotExist)
    else Ok(db.(items := db.items[i := c]))
  }

  function Deleted(db: Database, id: string): Result<Database, StoreError> {
    var i := IndexOfID(db.items, id);
    if i == |db.items| then Err(NotExist)
    else Ok(db.(items := db.items[..i] + db.items[i + 1..], runtime := db.runtime - {id}))
  }

  /** The first instance that an update of the lists would break. */
  function FirstBlocker(items: seq<InstanceConfig>, s: Servers, isIPv4: string -> bool): Option<StoreError> {
    if items == [] then None
    else
      var error := CheckConfig(s, Normalized(items[0]), isIPv4);
      if error.Some? then error else FirstBlocker(items[1..], s, isIPv4)
  }

  /** An update of the lists is blocked by the first instance that could not be used
      with them, if there is one. */
  lemma {:induction false} WhoBlocks(items: seq<InstanceConfig>, s: Servers, isIPv4: string -> bool)
    ensures var blocker := FirstBlocker(items, s, isIPv4);
            if forall i :: 0 <= i < |items| ==> CheckConfig(s, Normalized(items[i]), isIPv4).None? then blocker.None?
            else
              exists i :: 0 <= i < |items| && blocker.Some? &&
                          blocker == CheckConfig(s, Normalized(items[i]), isIPv4) &&
                          forall j :: 0 <= j < i ==> CheckConfig(s, Normalized(items[j]), isIPv4).None?
  {
    hide CheckConfig, Normalized;
    if items == [] {
    } else {
      var rest := items[1..];
      WhoBlocks(rest, s, isIPv4);
      if CheckConfig(s, Normalized(items[0]), isIPv4).None? {
        assert forall i :: 0 < i < |items| ==> items[i] == rest[i - 1];
        if i :| 0 <= i < |rest| && FirstBlocker(rest, s, isIPv4).Some? &&
                FirstBlocker(rest, s, isIPv4) == CheckConfig(s, Normalized(rest[i]), isIPv4) &&
                forall j :: 0 <= j < i ==> CheckConfig(s, Normalized(rest[j]), isIPv4).None? {
          assert items[i + 1] == rest[i];
        }
      }
    }
  }

  function Regrouped(db: Database, groups: Servers, isIPv4: string -> bool): Result<Database, StoreError> {
    var s := StoredLists(groups);
    if ListError(s.stun, STUN).Some? then Err(ListError(s.stun, STUN).value)
    else if ListError(s.http, HTTP).Some? then Err(ListError(s.http, HTTP).value)
    else if ListError(s.quic, QUIC).Some? then Err(ListError(s.quic, QUIC).value)
    else if FirstBlocker(db.items, s, isIPv4).Some? then Err(FirstBlocker(db.items, s, isIPv4).value)
    else Ok(db.(servers := s))
  }

  /** The database in memory and the one in the file. */
  datatype Stores = Stores(db: Database, disk: Database)

  /** An operation that fails changes nothing; one that cannot be saved changes
      the memory all the same. */
  function Commit(s: Stores, next: Result<Database, StoreError>, written: bool): Stores {
    match next
    case Err(_) => s
    case Ok(db) => Stores(db, if written then db else s.disk)
  }

  /** A changed set of stored mappings is saved; an unchanged one is not. */
  function PutRuntime(s: Stores, runtime: map<string, PersistedStatus>, written: bool): Stores {
    if runtime == s.db.runtime then s else Commit(s, Ok(s.db.(runtime := runtime)), written)
  }

  function Failure(next: Result<Database, StoreError>, written: bool): Option<StoreError> {
    match next
    case Err(e) => Some(e)
    case Ok(_) => if written then None else Some(NotSaved)
  }

  // ----- What runners get

  /** A configuration with the lists it refers to. */
  datatype Resolved = Resolved(config: InstanceConfig, stun: seq<ServerEndpoint>, keepAlive: seq<ServerEndpoint>)

  /** resolveConfigLocked */
  function Resolve(s: Servers, config: InstanceConfig): Resolved {
    var c := Normalized(config);
    Resolved(c, if c.stunMode == "group" then s.stun else [],
             if c.keepAliveMode == "group" then ListOf(s, KeepAliveKind(c)) else [])
  }

  /** stunServers */
  function StunServers(r: Resolved): seq<ServerEndpoint> {
    if r.stun != [] then r.stun
    else
      var c := r.config;
      [ServerEndpoint(Or(c.stunHost, "turn.cloudflare.com"), if c.stunPort <= 0 then STUN_PORT else c.stunPort)]
  }

  /** keepAliveServers */
  function KeepAliveServers(r: Resolved): seq<ServerEndpoint> {
    if r.keepAlive != [] then r.keepAlive
    else [ServerEndpoint(r.config.httpHost, r.config.httpPort)]
  }

  // ----- The operations

  /** The first part of UpdateServerGroups: the new lists. */
  method NewLists(groups: Servers) returns (s: Servers)
    ensures s == StoredLists(groups)
  {
    hide Normalize, Flat, Chosen;
    var stun, http, quic := groups.stun, groups.http, groups.quic;
    if stun == [] && groups.stunGroups != [] {
      stun := FlattenLegacyServerGroups(ListsOf(groups.stunGroups), STUN_PORT);
    }
    if http == [] && groups.keepAliveGroups != [] {
      http := LegacyKeepAliveServers(groups.keepAliveGroups, false);
    }
    if quic == [] && groups.keepAliveGroups != [] {
      quic := LegacyKeepAliveServers(groups.keepAliveGroups, true);
    }
    stun := NormalizeServerEndpoints(stun, STUN_PORT);
    http := NormalizeServerEndpoints(http, HTTP_PORT);
    quic := NormalizeServerEndpoints(quic, QUIC_PORT);
    NoGroupsNoServers();
    s := Servers(stun, http, quic, [], []);
  }

  /** normalizeLocked, on what was read from a file. */
  method LoadDatabase(file: Database) returns (db: Database)
    ensures db == Loaded(file)
  {
    hide Normalize, Flat, Chosen, Normalized;
    var s := file.servers;
    var stun, http, quic := s.stun, s.http, s.quic;
    if stun == [] {
      stun := FlattenLegacyServerGroups(ListsOf(s.stunGroups), STUN_PORT);
    }
    if stun == [] {
      stun := DEFAULT_SERVERS.stun;
    }
    if http == [] {
      http := LegacyKeepAliveServers(s.keepAliveGroups, false);
    }
    if http == [] {
      http := DEFAULT_SERVERS.http;
    }
    if quic == [] {
      quic := LegacyKeepAliveServers(s.keepAliveGroups, true);
    }
    if quic == [] {
      quic := DEFAULT_SERVERS.quic;
    }
    stun := NormalizeServerEndpoints(stun, STUN_PORT);
    http := NormalizeServerEndpoints(http, HTTP_PORT);
    quic := NormalizeServerEndpoints(quic, QUIC_PORT);
    var items := file.items;
    for i := 0 to |file.items|
      invariant |items| == |file.items|
      invariant forall j :: 0 <= j < i ==> items[j] == Normalized(file.items[j])
      invariant forall j :: i <= j < |items| ==> items[j] == file.items[j]
    {
      var c := NormalizeConfig(items[i]);
      items := items[i := c];
    }
    assert items == NormalizedItems(file.items);
    return Database(Servers(stun, http, quic, [], []), items, file.runtime);
  }

  // ----- The file

  /** The file holds the administrator's credential and everything else. */
  datatype Content = Content(admin: Credential, rest: Database)

  datatype FileState = Missing | Unreadable | Malformed | Holds(content: Content)

  class DataFile {
    var state: FileState

    constructor (state: FileState)
      ensures this.state == state
    {
      this.state := state;
    }
  }

  function AdminOf(file: FileState): Option<Credential> {
    if file.Holds? then Some(file.content.admin) else None
  }

  /** What refreshAdminFromDiskLocked leaves in memory; the disk is None when the
      file is missing or cannot be read. */
  function Refreshed(memory: Credential, disk: Option<Credential>): Credential {
    if disk.None? || !disk.value.Complete() then memory
    else if memory.lastPassword == 0 || disk.value.lastPassword > memory.lastPassword then disk.value
    else memory
  }

  /** The credential of the file is taken if it has a user name, a salt and a hash, and
      if it is newer or the one in memory has no time. */
  lemma RefreshMeans(memory: Credential, disk: Credential)
    ensures Refreshed(memory, None) == memory
    ensures disk.username == "" || disk.salt == "" || disk.hash == "" ==> Refreshed(memory, Some(disk)) == memory
    ensures disk.username != "" && disk.salt != "" && disk.hash != "" ==>
              Refreshed(memory, Some(disk)) ==
              if memory.lastPassword == 0 || disk.lastPassword > memory.lastPassword then disk else memory
  {
  }

  /** A store and its file. */
  datatype Storage = Storage(admin: Credential, db: Database, file: FileState) {
    /** Without the credential; a file that holds nothing counts as a fresh one. */
    function Databases(): Stores {
      Stores(db, if file.Holds? then file.content.rest else FRESH)
    }
  }

  /** saveLocked: of the file only the credential is looked at. */
  function Saved(w: Storage, written: bool): Storage {
    var admin := Refreshed(w.admin, AdminOf(w.file));
    Storage(admin, w.db, if written then Holds(Content(admin, w.db)) else w.file)
  }

  function Committed(w: Storage, next: Result<Database, StoreError>, written: bool): Storage {
    match next
    case Err(_) => w
    case Ok(db) => Saved(w.(db := db), written)
  }

  function Put(w: Storage, runtime: map<string, PersistedStatus>, written: bool): Storage {
    if runtime == w.db.runtime then w else Committed(w, Ok(w.db.(runtime := runtime)), written)
  }

  /** The credential apart, the methods do to a store and its file what the
      functions on databases say. */
  lemma StorageCommits(w: Storage, next: Result<Database, StoreError>,
                       runtime: map<string, PersistedStatus>, written: bool)
    ensures Committed(w, next, written).Databases() == Commit(w.Databases(), next, written)
    ensures Put(w, runtime, written).Databases() == PutRuntime(w.Databases(), runtime, written)
  {
  }

  datatype OpenError = CannotRead | CannotParse | NoUser | CannotWrite

  /** OpenStore: an existing file is read, and only a missing one is created, with
      the given credential; `written` says whether that succeeds. */
  method OpenStore(isIPv4: string -> bool, file: DataFile, setup: Credential, written: bool)
    returns (r: Result<ConfigStore, OpenError>)
    modifies file
    ensures var was := old(file.state);
            && (r.Err? <==> was.Unreadable? || was.Malformed? || (was.Missing? && (setup.username == "" || !written)))
            && (r.Err? ==> file.state == was)
            && (r.Err? ==> r.error == match was
                                      case Unreadable => CannotRead
                                      case Malformed => CannotParse
                                      case _ => if setup.username == "" then NoUser else CannotWrite)
            && (r.Ok? ==>
                  && fresh(r.value) && r.value.isIPv4 == isIPv4 && r.value.file == file
                  && r.value.State() ==
                     if was.Holds? then Storage(was.content.admin, Loaded(was.content.rest), was)
                     else Storage(setup, FRESH, Holds(Content(setup, FRESH))))
  {
    match file.state
    case Unreadable => return Err(CannotRead);
    case Malformed => return Err(CannotParse);
    case Holds(content) =>
      var loaded := LoadDatabase(content.rest);
      var store := new ConfigStore(isIPv4, file, content.admin, loaded);
      return Ok(store);
    case Missing =>
      if setup.username == "" {
        return Err(NoUser);
      }
      var store := new ConfigStore(isIPv4, file, setup, FRESH);
      var ok := store.SaveLocked(written);
      if !ok {
        return Err(CannotWrite);
      }
      return Ok(store);
  }

  class ConfigStore {
    const isIPv4: string -> bool
    const file: DataFile
    var admin: Credential
    var db: Database

    ghost function State(): Storage
      reads this, file
    {
      Storage(admin, db, file.state)
    }

    constructor (isIPv4: string -> bool, file: DataFile, admin: Credential, db: Database)
      ensures this.isIPv4 == isIPv4 && this.file == file && this.admin == admin && this.db == db
    {
      this.isIPv4, this.file, this.admin, this.db := isIPv4, file, admin, db;
    }

    method RefreshAdminFromDiskLocked()
      modifies this`admin
      ensures admin == Refreshed(old(admin), AdminOf(file.state))
    {
      match file.state
      case Holds(content) =>
        var disk := content.admin;
        if disk.username == "" || disk.salt == "" || disk.hash == "" {
          return;
        }
        if admin.lastPassword == 0 || disk.lastPassword > admin.lastPassword {
          admin := disk;
        }
      case _ =>
        return;
    }

    /** saveLocked; `written` says whether writing the file succeeds. Only the
        credential is taken from the file: everything else goes out as it is in
        memory, whatever the file holds. */
    method SaveLocked(written: bool) returns (ok: bool)
      modifies this`admin, file
      ensures ok == written && State() == Saved(old(State()), written)
    {
      RefreshAdminFromDiskLocked();
      if written {
        file.state := Holds(Content(admin, db));
      }
      return written;
    }

    method Admin() returns (cred: Credential)
      modifies this`admin
      ensures cred == admin == Refreshed(old(admin), AdminOf(file.state))
    {
      RefreshAdminFromDiskLocked();
      return admin;
    }

    /** SaveRuntimeStatus. An unchanged status is not written, even if an earlier
        write of it has failed. */
    method SaveRuntimeStatus(id: string, st: RuntimeStatus, written: bool) returns (ok: bool)
      modifies this`db, this`admin, file
      ensures State() == Put(old(State()), Save(old(db.runtime), id, st), written)
      ensures ok <==> written || db.runtime == old(db.runtime)
    {
      if id == "" || st.publicAddress == "" || st.publicPort == 0 {
        return true;
      }
      var next := Persisted(st);
      if id in db.runtime && db.runtime[id] == next {
        assert db.runtime[id := next] == db.runtime;
        return true;
      }
      db := db.(runtime := db.runtime[id := next]);
      assert db.runtime[id] == next;
      ok := SaveLocked(written);
    }

    /** ClearRuntimeStatus */
    method ClearRuntimeStatus(id: string, written: bool) returns (ok: bool)
      modifies this`db, this`admin, file
      ensures State() == Put(old(State()), Removed(old(db.runtime), id), written)
      ensures ok <==> written || db.runtime == old(db.runtime)
    {
      if id == "" || id !in db.runtime {
        assert id !in db.runtime ==> db.runtime - {id} == db.runtime;
        return true;
      }
      db := db.(runtime := db.runtime - {id});
      assert id !in db.runtime;
      ok := SaveLocked(written);
    }

    /** RuntimeStatus */
    method LoadRuntimeStatus(id: string) returns (found: Option<RuntimeStatus>)
      ensures found == Load(db.runtime, id)
    {
      if id !in db.runtime || db.runtime[id].publicAddress == "" || db.runtime[id].publicPort == 0 {
        return None;
      }
      return Some(Restored(db.runtime[id]));
    }

    /** A configuration in normal form is accepted exactly if a runner can use it
        and the shared lists it refers to are not empty. */
    method ValidateConfigLocked(c: InstanceConfig) returns (error: Option<StoreError>)
      ensures error == CheckConfig(db.servers, c, isIPv4)
      ensures Normalized(c) == c ==> (error.None? <==> Usable(c, isIPv4) && ListsPresent(db.servers, c))
    {
      hide Normalized, ValidateConfig, Usable;
      ValidMeansUsable(c, isIPv4);
      var invalid := ValidateConfig(c, isIPv4);
      if invalid.Some? {
        return Some(Invalid(invalid.value));
      }
      if c.stunMode == "group" && |db.servers.stun| == 0 {
        return Some(ListNotAvailable(STUN));
      }
      if c.keepAliveMode == "group" {
        if c.protocol == "udp" && |db.servers.quic| == 0 {
          return Some(ListNotAvailable(QUIC));
        }
        if c.protocol != "udp" && |db.servers.http| == 0 {
          return Some(ListNotAvailable(HTTP));
        }
      }
      return None;
    }

    method AddInstance(config: InstanceConfig, newID: string, written: bool) returns (r: Result<Resolved, StoreError>)
      modifies this`db, this`admin, file
      ensures var next := Added(old(db), config, newID, isIPv4);
              && State() == Committed(old(State()), next, written)
              && r == match Failure(next, written)
                      case Some(e) => Err(e)
                      case None => Ok(Resolve(db.servers, ToAdd(config, newID)))
    {
      hide Normalized, CheckConfig, Resolve;
      var cfg := config;
      if cfg.id == "" {
        cfg := cfg.(id := newID);
      }
      cfg := NormalizeConfig(cfg);
      var error := ValidateConfigLocked(cfg);
      if error.Some? {
        return Err(error.value);
      }
      for i := 0 to |db.items|
        invariant forall j :: 0 <= j < i ==> db.items[j].id != cfg.id
      {
        if db.items[i].id == cfg.id {
          return Err(AlreadyExists);
        }
      }
      db := db.(items := db.items + [cfg]);
      var ok := SaveLocked(written);
      if !ok {
        return Err(NotSaved);
      }
      return Ok(Resolve(db.servers, cfg));
    }

    method UpdateInstance(id: string, config: InstanceConfig, written: bool) returns (r: Result<Resolved, StoreError>)
      modifies this`db, this`admin, file
      ensures var next := Updated(old(db), id, config, isIPv4);
              && State() == Committed(old(State()), next, written)
              && r == match Failure(next, written)
                      case Some(e) => Err(e)
                      case None => Ok(Resolve(db.servers, Normalized(config.(id := id))))
    {
      hide Normalized, CheckConfig, Resolve;
      var cfg := NormalizeConfig(config.(id := id));
      var error := ValidateConfigLocked(cfg);
      if error.Some? {
        return Err(error.value);
      }
      for i := 0 to |db.items|
        invariant forall j :: 0 <= j < i ==> db.items[j].id != id
        invariant State() == old(State())
      {
        if db.items[i].id == id {
          db := db.(items := db.items[i := cfg]);
          var ok := SaveLocked(written);
          if !ok {
            return Err(NotSaved);
          }
          return Ok(Resolve(db.servers, cfg));
        }
      }
      return Err(NotExist);
    }

    method DeleteInstance(id: string, written: bool) returns (error: Option<StoreError>)
      modifies this`db, this`admin, file
      ensures var next := Deleted(old(db), id);
              State() == Committed(old(State()), next, written) && error == Failure(next, written)
    {
      for i := 0 to |db.items|
        invariant forall j :: 0 <= j < i ==> db.items[j].id != id
        invariant State() == old(State())
      {
        if db.items[i].id == id {
          db := db.(items := db.items[..i] + db.items[i + 1..], runtime := db.runtime - {id});
          var ok := SaveLocked(written);
          if !ok {
            return Some(NotSaved);
          }
          return None;
        }
      }
      return Some(NotExist);
    }

    method UpdateServerGroups(groups: Servers, written: bool) returns (error: Option<StoreError>)
      modifies this`db, this`admin, file
      ensures var next := Regrouped(old(db), groups, isIPv4);
              State() == Committed(old(State()), next, written) && error == Failure(next, written)
    {
      hide StoredLists, ListError, CheckConfig, Normalized;
      var s := NewLists(groups);
      error := ValidateServerEndpoints(s.stun, STUN);
      if error.Some? {
        return;
      }
      error := ValidateServerEndpoints(s.http, HTTP);
      if error.Some? {
        return;
      }
      error := ValidateServerEndpoints(s.quic, QUIC);
      if error.Some? {
        return;
      }
      for i := 0 to |db.items|
        invariant State() == old(State())
        invariant FirstBlocker(db.items, s, isIPv4) == FirstBlocker(db.items[i..], s, isIPv4)
      {
        assert db.items[i..][1..] == db.items[i + 1..];
        var item := NormalizeConfig(db.items[i]);
        error := CheckConfig(s, item, isIPv4);
        if error.Some? {
          return;
        }
      }
      db := db.(servers := s);
      var ok := SaveLocked(written);
      if !ok {
        return Some(NotSaved);
      }
      return None;
    }

    method GetInstance(id: string) returns (found: Option<Resolved>)
      ensures found == Find(db, id)
    {
      hide Resolve;
      for i := 0 to |db.items|
        invariant forall j :: 0 <= j < i ==> db.items[j].id != id
      {
        if db.items[i].id == id {
          return Some(Resolve(db.servers, db.items[i]));
        }
      }
      return None;
    }
  }

  /** What GetInstance returns. */
  function Find(db: Database, id: string): Option<Resolved> {
    var i := IndexOfID(db.items, id);
    if i < |db.items| then Some(Resolve(db.servers, db.items[i])) else None
  }

  function OrDefault(servers: seq<ServerEndpoint>, default: seq<ServerEndpoint>): seq<ServerEndpoint> {
    if servers == [] then default else servers
  }

  function NormalizedItems(items: seq<InstanceConfig>): (r: seq<InstanceConfig>)
    ensures |r| == |items| && forall i :: 0 <= i < |r| ==> r[i] == Normalized(items[i])
  {
    seq(|items|, i requires 0 <= i < |items| => Normalized(items[i]))
  }

  /** What normalizeLocked makes of a file. */
  function Loaded(file: Database): Database {
    var (stun, http, quic) := Lists(file.servers);
    Database(Stored(OrDefault(stun, DEFAULT_SERVERS.stun), OrDefault(http, DEFAULT_SERVERS.http),
                    OrDefault(quic, DEFAULT_SERVERS.quic)),
             NormalizedItems(file.items), file.runtime)
  }
}
