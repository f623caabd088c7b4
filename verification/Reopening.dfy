/** Server lists that are normalised again whenever the store reads its file:
    which of them survive, once and any number of times. */
module Reopening {
  import opened Endpoints
  import opened Net
  import opened Ports
  import opened Rotation
  import opened Store
  import opened Text

  lemma NormalizeGoodList(list: seq<ServerEndpoint>, defaultPort: int)
    requires GoodServers(list)
    ensures Normalize(list, defaultPort) == list <==> AllSettled(list)
  {
    forall i | 0 <= i < |list| ensures list[i].host != "" {
      assert TrimSpace(list[i].host) != "";
    }
    hide Normalize, TrimSpace, SameEndpoint;
    FixedIffSettled(list, defaultPort);
  }

  // ----- Blank texts

  predicate Blank(s: string) {
    forall i :: 0 <= i < |s| ==> IsSpace(s[i])
  }

  lemma {:induction false} TrimLeftBlank(s: string)
    ensures TrimLeft(s, IsSpace) == "" <==> Blank(s)
  {
    hide IsSpace, Blank;
    if s == "" {
      EmptyIsBlank();
    } else if IsSpace(s[0]) {
      TrimLeftBlank(s[1..]);
      BlankTail(s);
    } else {
      NotBlank(s);
    }
  }

  lemma EmptyIsBlank()
    ensures Blank("")
  {
  }

  lemma BlankTail(s: string)
    requires s != "" && IsSpace(s[0])
    ensures Blank(s) <==> Blank(s[1..])
  {
    hide IsSpace;
    assert forall i :: 0 < i < |s| ==> s[i] == s[1..][i - 1];
    assert forall i :: 0 <= i < |s| - 1 ==> s[1..][i] == s[i + 1];
  }

  lemma NotBlank(s: string)
    requires s != "" && !IsSpace(s[0])
    ensures !Blank(s)
  {
    hide IsSpace;
  }

  lemma TrimSpaceBlank(s: string)
    ensures TrimSpace(s) == "" <==> Blank(s)
  {
    TrimLeftBlank(s);
    var left := TrimLeft(s, IsSpace);
    hide TrimLeft;
    if left != "" {
      NotAllTrimmed(left);
    }
  }

  lemma {:induction false} NotAllTrimmed(s: string)
    requires s != "" && !IsSpace(s[0])
    ensures TrimRight(s, IsSpace) != ""
    decreases |s|
  {
    if IsSpace(s[|s| - 1]) {
      NotAllTrimmed(s[..|s| - 1]);
    }
  }

  /** Folding case makes no text blank. */
  lemma BlankFolds(a: string, b: string)
    requires EqualFold(a, b) && Blank(b)
    ensures Blank(a)
  {
    forall i | 0 <= i < |a| ensures IsSpace(a[i]) {
      assert ToLower(a)[i] == ToLower(b)[i] && IsSpace(b[i]);
    }
  }

  // ----- One more normalisation

  /** Some host stays a host, and none becomes a blank one: a condition on the
      texts of a list. */
  ghost predicate Reusable(list: seq<ServerEndpoint>) {
    && (exists i :: 0 <= i < |list| && NormalizeHost(list[i].host) != "")
    && (forall i :: 0 <= i < |list| ==>
          NormalizeHost(list[i].host) == "" || TrimSpace(NormalizeHost(list[i].host)) != "")
  }

  /** A good list is still good after it is normalised again exactly if it is reusable. */
  lemma GoodAfterReopening(list: seq<ServerEndpoint>, defaultPort: int)
    requires GoodServers(list)
    ensures GoodServers(Normalize(list, defaultPort)) <==> Reusable(list)
  {
    var entries := CleanAll(list, defaultPort);
    NormalizedList(entries, |entries|);
    assert entries[..|entries|] == entries;
    hide NormalizeHost, TrimSpace, Key, DuplicateFree;
    if Reusable(list) {
      ReusableIsGood(list, defaultPort);
    } else {
      UnusableIsBad(list, defaultPort);
    }
  }

  lemma ReusableIsGood(list: seq<ServerEndpoint>, defaultPort: int)
    requires GoodServers(list) && Reusable(list)
    requires var r := Normalize(list, defaultPort);
             DuplicateFree(r) && forall i :: 0 <= i < |r| ==> r[i] in CleanAll(list, defaultPort) && r[i].host != ""
    ensures GoodServers(Normalize(list, defaultPort))
  {
    hide NormalizeHost, TrimSpace, Key, DuplicateFree, Firsts;
    var entries := CleanAll(list, defaultPort);
    var i :| 0 <= i < |list| && NormalizeHost(list[i].host) != "";
    var k := NothingIsLost(entries, |entries|, i);
    var r := Normalize(list, defaultPort);
    forall j | 0 <= j < |r| ensures TrimSpace(r[j].host) != "" && 1 <= r[j].port <= MAX_PORT {
      var e :| 0 <= e < |entries| && entries[e] == r[j];
      assert entries[e] == Clean(list[e], defaultPort) && 1 <= list[e].port <= MAX_PORT;
    }
  }

  lemma UnusableIsBad(list: seq<ServerEndpoint>, defaultPort: int)
    requires GoodServers(list) && !Reusable(list)
    requires var r := Normalize(list, defaultPort);
             forall i :: 0 <= i < |r| ==> r[i] in CleanAll(list, defaultPort) && r[i].host != ""
    ensures !GoodServers(Normalize(list, defaultPort))
  {
    hide NormalizeHost, TrimSpace, Key, DuplicateFree, Firsts;
    var entries := CleanAll(list, defaultPort);
    var r := Normalize(list, defaultPort);
    forall j | 0 <= j < |r| ensures exists e :: 0 <= e < |list| && r[j].host == NormalizeHost(list[e].host) {
      var e :| 0 <= e < |entries| && entries[e] == r[j];
      assert entries[e] == Clean(list[e], defaultPort);
    }
    assert r != [] ==> r[0].host != "";
    if exists i :: 0 <= i < |list| && NormalizeHost(list[i].host) != "" {
      var i :| 0 <= i < |list| && NormalizeHost(list[i].host) != "" && TrimSpace(NormalizeHost(list[i].host)) == "";
      var k := NothingIsLost(entries, |entries|, i);
      TrimSpaceBlank(entries[i].host);
      BlankFolds(r[k].host, entries[i].host);
      TrimSpaceBlank(r[k].host);
    }
  }

  // ----- Any number of normalisations

  /** What is left of a host when normalising changes nothing any more. */
  function Final(host: string): string
    decreases |host|
  {
    SettledIffFixed(host);
    if NormalizeHost(host) == host then host else Final(NormalizeHost(host))
  }

  ghost predicate Lasting(list: seq<ServerEndpoint>) {
    forall i :: 0 <= i < |list| ==> Final(list[i].host) != ""
  }

  lemma FinalStep(host: string)
    ensures Final(NormalizeHost(host)) == Final(host)
    ensures TrimSpace(host) == "" ==> Final(host) == ""
  {
    SettledIffFixed(host);
    hide TrimSpace, Trim;
    if TrimSpace(host) == "" {
      EmptyHost();
      assert NormalizeHost(host) == NormalizeHost("") == "";
    }
  }

  lemma EmptyHost()
    ensures NormalizeHost("") == "" && TrimSpace("") == "" && Final("") == ""
  {
    hide Trim, TrimSpace;
  }

  /** A list that lasts is reusable, and it still lasts when it is normalised. */
  lemma LastingIsReusable(list: seq<ServerEndpoint>, defaultPort: int)
    requires GoodServers(list) && Lasting(list)
    ensures Reusable(list) && Lasting(Normalize(list, defaultPort))
  {
    var entries := CleanAll(list, defaultPort);
    NormalizedList(entries, |entries|);
    hide *;
    assert entries[..|entries|] == entries;
    NormalizeIsFirsts(list, defaultPort);
    GoodIsNotEmpty(list);
    LastingList(list, defaultPort, Normalize(list, defaultPort));
  }

  lemma GoodIsNotEmpty(list: seq<ServerEndpoint>)
    requires GoodServers(list)
    ensures list != []
  {
  }

  lemma NormalizeIsFirsts(list: seq<ServerEndpoint>, defaultPort: int)
    ensures Normalize(list, defaultPort) == Firsts(CleanAll(list, defaultPort), |list|)
  {
  }

  lemma LastingList(list: seq<ServerEndpoint>, defaultPort: int, r: seq<ServerEndpoint>)
    requires list != [] && Lasting(list) && forall i :: 0 <= i < |r| ==> r[i] in CleanAll(list, defaultPort)
    ensures Reusable(list) && Lasting(r)
  {
    hide NormalizeHost, TrimSpace, Final;
    var entries := CleanAll(list, defaultPort);
    forall i | 0 <= i < |list|
      ensures Final(entries[i].host) != "" && entries[i].host == NormalizeHost(list[i].host)
      ensures entries[i].host != "" && TrimSpace(entries[i].host) != ""
    {
      HostLasts(list[i].host);
      assert entries[i] == Clean(list[i], defaultPort);
    }
    assert entries[0].host == NormalizeHost(list[0].host);
    forall i | 0 <= i < |list| ensures TrimSpace(NormalizeHost(list[i].host)) != "" {
      assert entries[i].host == NormalizeHost(list[i].host);
    }
    forall j | 0 <= j < |r| ensures Final(r[j].host) != "" {
      var e :| 0 <= e < |entries| && entries[e] == r[j];
    }
  }

  lemma HostLasts(host: string)
    requires Final(host) != ""
    ensures var next := NormalizeHost(host); Final(next) != "" && next != "" && TrimSpace(next) != ""
  {
    hide NormalizeHost, TrimSpace, Final;
    EmptyHost();
    FinalStep(host);
    FinalStep(NormalizeHost(host));
  }

  /** Settled hosts last, but so does " x", which a restart turns into "x". */
  lemma SettledLasts(list: seq<ServerEndpoint>)
    requires GoodServers(list) && AllSettled(list)
    ensures Lasting(list)
  {
    hide NormalizeHost, TrimSpace, Settled;
    EmptyHost();
    forall i | 0 <= i < |list| ensures Final(list[i].host) != "" {
      SettledIffFixed(list[i].host);
    }
  }

  // ----- Which lists survive any number of normalisations

  function HostChars(list: seq<ServerEndpoint>): nat {
    if list == [] then 0 else |list[0].host| + HostChars(list[1..])
  }

  predicate PortsGiven(list: seq<ServerEndpoint>) {
    forall i :: 0 <= i < |list| ==> list[i].port > 0
  }

  lemma {:induction false} FirstsOfAll(entries: seq<ServerEndpoint>, n: nat)
    requires n <= |entries| && |Firsts(entries, n)| == n
    ensures Firsts(entries, n) == entries[..n]
  {
    hide FirstOccurrence;
    if n == 0 {
    } else {
      FirstsOfAll(entries, n - 1);
    }
  }

  lemma {:induction false} CleaningShortens(list: seq<ServerEndpoint>, defaultPort: int)
    requires PortsGiven(list)
    ensures var r := CleanAll(list, defaultPort); r == list || HostChars(r) < HostChars(list)
  {
    hide NormalizeHost, CleanAll;
    if list == [] {
      assert CleanAll(list, defaultPort) == [];
    } else {
      var head, rest := list[0], list[1..];
      CleaningShortens(rest, defaultPort);
      SettledIffFixed(head.host);
      var r := CleanAll(list, defaultPort);
      assert r[1..] == CleanAll(rest, defaultPort);
      assert list == [head] + rest && r == [Clean(head, defaultPort)] + r[1..];
      hide Settled;
    }
  }

  /** A list that normalisation changes gets fewer servers, or shorter hosts. */
  lemma NormalizeShrinks(list: seq<ServerEndpoint>, defaultPort: int)
    requires PortsGiven(list)
    ensures var next := Normalize(list, defaultPort);
            || next == list || |next| < |list|
            || (|next| == |list| && HostChars(next) < HostChars(list))
  {
    var entries := CleanAll(list, defaultPort);
    hide Firsts, CleanAll;
    assert entries[..|list|] == entries;
    if |Firsts(entries, |list|)| == |list| {
      FirstsOfAll(entries, |list|);
      CleaningShortens(list, defaultPort);
    }
  }

  /** The check that ends: a good list is reusable, and so is what becomes of it,
      until nothing changes any more. */
  ghost predicate Survives(list: seq<ServerEndpoint>, defaultPort: int)
    requires GoodServers(list)
    decreases |list|, HostChars(list)
  {
    GoodAfterReopening(list, defaultPort);
    NormalizeShrinks(list, defaultPort);
    var next := Normalize(list, defaultPort);
    Reusable(list) && (next == list || Survives(next, defaultPort))
  }

  /** The list after it was read n more times. */
  function Reread(list: seq<ServerEndpoint>, defaultPort: int, n: nat): seq<ServerEndpoint>
    decreases n
  {
    if n == 0 then list else Reread(Normalize(list, defaultPort), defaultPort, n - 1)
  }

  lemma SurvivesStep(list: seq<ServerEndpoint>, defaultPort: int)
    requires GoodServers(list)
    ensures var next := Normalize(list, defaultPort);
            && (GoodServers(next) <==> Reusable(list))
            && (Survives(list, defaultPort) <==> Reusable(list) && GoodServers(next) && Survives(next, defaultPort))
            && (next == list || |next| < |list| || (|next| == |list| && HostChars(next) < HostChars(list)))
            && (!Survives(list, defaultPort) && Reusable(list) ==> next != list)
  {
    GoodAfterReopening(list, defaultPort);
    NormalizeShrinks(list, defaultPort);
    hide Normalize, GoodServers, Reusable;
  }

  /** A good list stays good however often the file is read if and only if it
      passes the check. */
  lemma StaysGoodIffSurvives(list: seq<ServerEndpoint>, defaultPort: int)
    requires GoodServers(list)
    ensures (forall n: nat :: GoodServers(Reread(list, defaultPort, n))) <==> Survives(list, defaultPort)
  {
    if Survives(list, defaultPort) {
      forall n: nat ensures GoodServers(Reread(list, defaultPort, n)) {
        SurvivorStaysGood(list, defaultPort, n);
      }
    } else {
      var n := OthersGoBad(list, defaultPort);
    }
  }

  lemma {:induction false} SurvivorStaysGood(list: seq<ServerEndpoint>, defaultPort: int, n: nat)
    requires GoodServers(list) && Survives(list, defaultPort)
    ensures GoodServers(Reread(list, defaultPort, n))
    decreases n
  {
    hide Normalize, GoodServers, Reusable, Survives;
    if n == 0 {
    } else {
      SurvivesStep(list, defaultPort);
      SurvivorStaysGood(Normalize(list, defaultPort), defaultPort, n - 1);
    }
  }

  lemma {:induction false} OthersGoBad(list: seq<ServerEndpoint>, defaultPort: int) returns (n: nat)
    requires GoodServers(list) && !Survives(list, defaultPort)
    ensures !GoodServers(Reread(list, defaultPort, n))
    decreases |list|, HostChars(list)
  {
    hide Normalize, GoodServers, Reusable, Survives, HostChars;
    SurvivesStep(list, defaultPort);
    var next := Normalize(list, defaultPort);
    if !GoodServers(next) {
      assert Reread(next, defaultPort, 0) == next;
      return 1;
    }
    n := OthersGoBad(next, defaultPort);
    n := n + 1;
  }

  // ----- A host that vanishes

  lemma TrimOne(c: char, s: string, d: char, cut: char -> bool)
    requires cut(c) && cut(d) && s != "" && Trimmed(s, cut)
    ensures Trim([c] + s + [d], cut) == s
  {
    var t := [c] + s + [d];
    assert t[1..] == s + [d];
    assert TrimLeft(t, cut) == s + [d];
    assert (s + [d])[..|s|] == s;
    assert TrimRight(s + [d], cut) == TrimRight(s, cut);
  }

  lemma HostThatVanishes()
    ensures NormalizeHost("/ http:// /") == " http:// " && NormalizeHost(" http:// ") == ""
    ensures TrimSpace(" http:// ") == "http://"
  {
    hide Trim;
    var s, t := "/ http:// /", " http:// ";
    assert Trimmed(t, IsSlash) && Trimmed(s, IsSpace) && Trimmed("http://", IsSpace);
    assert ['/'] + t + ['/'] == s && [' '] + "http://" + [' '] == t;
    TrimOne('/', t, '/', IsSlash);
    TrimOne(' ', "http://", ' ', IsSpace);
    assert "http://"[0] == 'h' && "https://"[0] == 'h';
    assert TrimPrefix("http://", "http://") == "";
  }

  lemma OneServer(server: ServerEndpoint)
    requires server.port > 0
    ensures var host := NormalizeHost(server.host);
            Normalize([server], STUN_PORT) == if host == "" then [] else [ServerEndpoint(host, server.port)]
  {
  }
}
