/** Normalisation of server lists: normalizeServerEndpoints cleans every entry
    and keeps the first of each host and port. */
module Endpoints {
  import opened Net
  import opened Rotation
  import opened Text

  // ----- One entry

  /** normalizeServerHost */
  function NormalizeHost(host: string): string {
    Trim(TrimPrefix(TrimPrefix(TrimSpace(host), "http://"), "https://"), IsSlash)
  }

  function Clean(server: ServerEndpoint, defaultPort: int): ServerEndpoint {
    ServerEndpoint(NormalizeHost(server.host), if server.port <= 0 then defaultPort else server.port)
  }

  function PortText(port: int): (s: string)
    ensures ':' !in s
  {
    if port < 0 then "-" + Itoa(-port) else Itoa(port)
  }

  function Bracketed(host: string): string {
    if ':' in host then "[" + host + "]" else host
  }

  /** net.JoinHostPort */
  function JoinHostPort(host: string, port: int): string {
    Bracketed(host) + ":" + PortText(port)
  }

  /** The key of an entry in the set of those seen. */
  function Key(server: ServerEndpoint): string {
    ToLower(JoinHostPort(server.host, server.port))
  }

  /** A host that normalisation leaves as it is: a condition on its text. */
  predicate Settled(host: string) {
    Trimmed(host, IsSpace) && Trimmed(host, IsSlash) && !("http://" <= host) && !("https://" <= host)
  }

  lemma SettledIffFixed(host: string)
    ensures NormalizeHost(host) == host <==> Settled(host)
    ensures |NormalizeHost(host)| <= |host|
    ensures |NormalizeHost(host)| == |host| ==> NormalizeHost(host) == host
  {
    hide Trim, TrimSpace, Trimmed;
    var a := TrimSpace(host);
    var b := TrimPrefix(a, "http://");
    var c := TrimPrefix(b, "https://");
    assert |NormalizeHost(host)| <= |c| <= |b| <= |a| <= |host|;
  }

  /** Normalising a host once is not always enough. */
  lemma NormalizeHostIsNotIdempotent()
    ensures NormalizeHost("http:// x") == " x" && !Settled(" x") && NormalizeHost(" x") != " x"
  {
    hide Trim, TrimSpace;
    var s := "http:// x";
    SettledIffFixed(" x");
    assert s[0] == 'h' && s[8] == 'x' && s[7..] == " x";
    assert TrimPrefix(s, "http://") == " x";
    assert "https://"[0] == 'h' && " x"[0] == ' ' && " x"[1] == 'x';
    assert TrimPrefix(" x", "https://") == " x";
  }

  // ----- The key identifies host and port

  lemma PortTextHead(port: int)
    ensures |PortText(port)| > 0 && (port < 0 <==> PortText(port)[0] == '-')
    ensures PortText(port) == if port < 0 then "-" + Itoa(-port) else Itoa(port)
  {
  }

  lemma PortTextInjective(p: int, q: int)
    ensures PortText(p) == PortText(q) ==> p == q
  {
    hide *;
    PortTextHead(p);
    PortTextHead(q);
    if PortText(p) == PortText(q) {
      if p < 0 && q < 0 {
        assert PortText(p)[1..] == Itoa(-p) && PortText(q)[1..] == Itoa(-q);
        ItoaInjective(-p, -q);
      } else if p >= 0 && q >= 0 {
        ItoaInjective(p, q);
      }
    }
  }

  lemma BracketedInjective(x: string, y: string)
    ensures Bracketed(x) == Bracketed(y) ==> x == y
  {
    if ':' in x && ':' in y {
      assert Bracketed(x)[1..|x| + 1] == x && Bracketed(y)[1..|y| + 1] == y;
    }
    if ':' in x {
      var k :| 0 <= k < |x| && x[k] == ':';
      assert Bracketed(x)[k + 1] == ':';
    }
    if ':' in y {
      var k :| 0 <= k < |y| && y[k] == ':';
      assert Bracketed(y)[k + 1] == ':';
    }
  }

  lemma KeyParts(server: ServerEndpoint)
    ensures Key(server) == Bracketed(ToLower(server.host)) + ":" + PortText(server.port)
  {
  }

  lemma LastColon(a: string, p: string, b: string, q: string)
    requires ':' !in p && ':' !in q && a + ":" + p == b + ":" + q
    ensures a == b && p == q
  {
    var s := a + ":" + p;
    assert s[|a|] == ':' && s[|b|] == ':';
    assert s[..|a|] == a && s[..|b|] == b && s[|a| + 1..] == p && s[|b| + 1..] == q;
  }

  /** Two entries have one key exactly when they are the same server. */
  lemma KeyIdentifiesServer(a: ServerEndpoint, b: ServerEndpoint)
    ensures Key(a) == Key(b) <==> SameEndpoint(a, b)
  {
    KeyParts(a);
    KeyParts(b);
    if Key(a) == Key(b) {
      LastColon(Bracketed(ToLower(a.host)), PortText(a.port), Bracketed(ToLower(b.host)), PortText(b.port));
      BracketedInjective(ToLower(a.host), ToLower(b.host));
      PortTextInjective(a.port, b.port);
    }
  }

  // ----- First occurrences

  function CleanAll(servers: seq<ServerEndpoint>, defaultPort: int): (r: seq<ServerEndpoint>)
    ensures |r| == |servers|
    ensures forall i :: 0 <= i < |r| ==> r[i] == Clean(servers[i], defaultPort)
  {
    seq(|servers|, i requires 0 <= i < |servers| => Clean(servers[i], defaultPort))
  }

  /** Entry i is not empty and is the first with its key. */
  predicate FirstOccurrence(entries: seq<ServerEndpoint>, i: nat)
    requires i < |entries|
  {
    entries[i].host != "" && forall j :: 0 <= j < i && entries[j].host != "" ==> Key(entries[j]) != Key(entries[i])
  }

  /** The first occurrences among the first n entries, in order. */
  function Firsts(entries: seq<ServerEndpoint>, n: nat): (r: seq<ServerEndpoint>)
    requires n <= |entries|
    ensures |r| <= n
  {
    if n == 0 then []
    else Firsts(entries, n - 1) + if FirstOccurrence(entries, n - 1) then [entries[n - 1]] else []
  }

  /** What normalizeServerEndpoints returns: the cleaned entries that are not
      empty and come first with their host and port, in order. */
  function Normalize(servers: seq<ServerEndpoint>, defaultPort: int): seq<ServerEndpoint> {
    Firsts(CleanAll(servers, defaultPort), |servers|)
  }

  /** normalizeServerEndpoints */
  method NormalizeServerEndpoints(servers: seq<ServerEndpoint>, defaultPort: int) returns (out: seq<ServerEndpoint>)
    ensures out == Normalize(servers, defaultPort)
  {
    hide Clean, Key;
    out := [];
    var seen := {};
    ghost var entries := CleanAll(servers, defaultPort);
    for i := 0 to |servers|
      invariant out == Firsts(entries, i)
      invariant seen == set j | 0 <= j < i && entries[j].host != "" :: Key(entries[j])
    {
      var server := Clean(servers[i], defaultPort);
      if server.host == "" {
        continue;
      }
      var key := Key(server);
      if key in seen {
        continue;
      }
      seen := seen + {key};
      out := out + [server];
    }
  }

  // ----- The same list, recursively

  function Keys(entries: seq<ServerEndpoint>): set<string> {
    set e | e in entries && e.host != "" :: Key(e)
  }

  /** The entries with new keys, given the keys already seen. */
  function Dedup(entries: seq<ServerEndpoint>, seen: set<string>): seq<ServerEndpoint> {
    if entries == [] then []
    else
      var e := entries[0];
      if e.host == "" || Key(e) in seen then Dedup(entries[1..], seen)
      else [e] + Dedup(entries[1..], seen + {Key(e)})
  }

  lemma KeysConcat(a: seq<ServerEndpoint>, b: seq<ServerEndpoint>)
    ensures Keys(a + b) == Keys(a) + Keys(b)
  {
  }

  lemma KeysFirst(a: seq<ServerEndpoint>)
    requires a != []
    ensures Keys(a) == (if a[0].host == "" then {} else {Key(a[0])}) + Keys(a[1..])
  {
  }

  lemma {:induction false} DedupConcat(a: seq<ServerEndpoint>, b: seq<ServerEndpoint>, seen: set<string>)
    ensures Dedup(a + b, seen) == Dedup(a, seen) + Dedup(b, seen + Keys(a))
    decreases |a|
  {
    hide Key;
    if a == [] {
      assert a + b == b && seen + Keys(a) == seen;
    } else {
      var e := a[0];
      assert (a + b)[1..] == a[1..] + b;
      KeysFirst(a);
      if e.host == "" || Key(e) in seen {
        DedupConcat(a[1..], b, seen);
        assert seen + Keys(a) == seen + Keys(a[1..]);
      } else {
        DedupConcat(a[1..], b, seen + {Key(e)});
        assert seen + Keys(a) == seen + {Key(e)} + Keys(a[1..]);
      }
    }
  }

  lemma {:induction false} DedupDedup(b: seq<ServerEndpoint>, s: set<string>, t: set<string>)
    ensures Dedup(Dedup(b, s), t) == Dedup(b, s + t)
    decreases |b|
  {
    hide Key;
    if b == [] {
    } else {
      var e := b[0];
      if e.host == "" || Key(e) in s {
        DedupDedup(b[1..], s, t);
      } else {
        var rest := Dedup(b[1..], s + {Key(e)});
        assert Dedup(b, s)[1..] == rest;
        if Key(e) in t {
          DedupDedup(b[1..], s + {Key(e)}, t);
          assert s + {Key(e)} + t == s + t;
        } else {
          DedupDedup(b[1..], s + {Key(e)}, t + {Key(e)});
          assert s + {Key(e)} + (t + {Key(e)}) == s + t + {Key(e)};
        }
      }
    }
  }

  lemma {:induction false} DedupKeys(a: seq<ServerEndpoint>, seen: set<string>)
    ensures Keys(Dedup(a, seen)) + seen == Keys(a) + seen
    decreases |a|
  {
    hide Key;
    if a == [] {
    } else {
      var e := a[0];
      KeysFirst(a);
      if e.host == "" || Key(e) in seen {
        DedupKeys(a[1..], seen);
      } else {
        DedupKeys(a[1..], seen + {Key(e)});
        KeysConcat([e], Dedup(a[1..], seen + {Key(e)}));
        KeysFirst([e]);
      }
    }
  }

  /** The loop and the recursion agree. */
  lemma {:induction false} FirstsIsDedup(entries: seq<ServerEndpoint>, n: nat)
    requires n <= |entries|
    ensures Firsts(entries, n) == Dedup(entries[..n], {})
  {
    hide Key;
    if n == 0 {
    } else {
      FirstsIsDedup(entries, n - 1);
      var e := entries[n - 1];
      assert entries[..n] == entries[..n - 1] + [e];
      DedupConcat(entries[..n - 1], [e], {});
      assert [e][1..] == [];
      assert FirstOccurrence(entries, n - 1) <==> e.host != "" && Key(e) !in Keys(entries[..n - 1]) by {
        if Key(e) in Keys(entries[..n - 1]) {
          var x :| x in entries[..n - 1] && x.host != "" && Key(x) == Key(e);
          var j :| 0 <= j < n - 1 && entries[..n - 1][j] == x;
          assert entries[j].host != "";
        } else {
          forall j | 0 <= j < n - 1 && entries[j].host != "" ensures Key(entries[j]) != Key(e) {
            assert entries[j] in entries[..n - 1];
          }
        }
      }
      assert {} + Keys(entries[..n - 1]) == Keys(entries[..n - 1]);
    }
  }

  lemma NormalizeIsDedup(servers: seq<ServerEndpoint>, defaultPort: int)
    ensures Normalize(servers, defaultPort) == Dedup(CleanAll(servers, defaultPort), {})
  {
    var entries := CleanAll(servers, defaultPort);
    assert entries[..|servers|] == entries;
    FirstsIsDedup(entries, |servers|);
  }

  // ----- What a normalised list is like

  /** Hosts are not empty, ports are positive, and no server comes twice. */
  lemma {:induction false} NormalizedList(entries: seq<ServerEndpoint>, n: nat)
    requires n <= |entries|
    ensures var r := Firsts(entries, n);
            && DuplicateFree(r)
            && (forall i :: 0 <= i < |r| ==> r[i] in entries[..n] && r[i].host != "")
  {
    hide Key, SameEndpoint;
    if n == 0 {
    } else {
      NormalizedList(entries, n - 1);
      var before := Firsts(entries, n - 1);
      if FirstOccurrence(entries, n - 1) {
        forall i | 0 <= i < |before| ensures !SameEndpoint(before[i], entries[n - 1]) {
          var j :| 0 <= j < n - 1 && entries[..n - 1][j] == before[i];
          assert entries[j].host != "";
          KeyIdentifiesServer(before[i], entries[n - 1]);
        }
      }
    }
  }

  /** Every server of the input that is not empty is in the output. */
  lemma {:induction false} NothingIsLost(entries: seq<ServerEndpoint>, n: nat, i: nat) returns (k: nat)
    requires i < n <= |entries| && entries[i].host != ""
    ensures k < |Firsts(entries, n)| && SameEndpoint(Firsts(entries, n)[k], entries[i])
  {
    hide Key, SameEndpoint;
    if i < n - 1 {
      k := NothingIsLost(entries, n - 1, i);
    } else if FirstOccurrence(entries, i) {
      k := |Firsts(entries, n - 1)|;
      KeyIdentifiesServer(entries[i], entries[i]);
    } else {
      var j :| 0 <= j < i && entries[j].host != "" && Key(entries[j]) == Key(entries[i]);
      k := NothingIsLost(entries, n - 1, j);
      KeyIdentifiesServer(Firsts(entries, n)[k], entries[j]);
      KeyIdentifiesServer(entries[j], entries[i]);
      KeyIdentifiesServer(Firsts(entries, n)[k], entries[i]);
    }
  }

  // ----- Normalising again

  lemma {:induction false} AllFirsts(entries: seq<ServerEndpoint>, n: nat)
    requires n <= |entries| && |Firsts(entries, n)| == n
    ensures Firsts(entries, n) == entries[..n]
  {
    hide Key;
    if n == 0 {
    } else {
      AllFirsts(entries, n - 1);
      assert entries[..n] == entries[..n - 1] + [entries[n - 1]];
    }
  }

  ghost predicate AllSettled(servers: seq<ServerEndpoint>) {
    forall i :: 0 <= i < |servers| ==> Settled(servers[i].host) && servers[i].port > 0
  }

  lemma SettledIsClean(servers: seq<ServerEndpoint>, defaultPort: int)
    requires AllSettled(servers)
    ensures CleanAll(servers, defaultPort) == servers
  {
  }

  lemma NormalizedPorts(servers: seq<ServerEndpoint>, defaultPort: int)
    requires defaultPort > 0
    ensures forall i :: 0 <= i < |Normalize(servers, defaultPort)| ==> Normalize(servers, defaultPort)[i].port > 0
  {
    NormalizedList(CleanAll(servers, defaultPort), |servers|);
  }

  /** Normalising a normalised list changes nothing exactly when the hosts of the
      list are settled. */
  lemma NormalizeTwice(servers: seq<ServerEndpoint>, defaultPort: int)
    requires defaultPort > 0
    ensures var once := Normalize(servers, defaultPort);
            Normalize(once, defaultPort) == once <==> forall i :: 0 <= i < |once| ==> Settled(once[i].host)
  {
    NormalizedAreDistinct(servers, defaultPort);
    NormalizedPorts(servers, defaultPort);
    hide Normalize, Settled, DuplicateFree;
    FixedIffSettled(Normalize(servers, defaultPort), defaultPort);
  }

  lemma FixedIsSettled(once: seq<ServerEndpoint>, defaultPort: int)
    requires Normalize(once, defaultPort) == once
    ensures forall i :: 0 <= i < |once| ==> Settled(once[i].host)
  {
    hide Settled, Key, Firsts, NormalizeHost;
    var entries := CleanAll(once, defaultPort);
    AllFirsts(entries, |once|);
    forall i | 0 <= i < |once| ensures Settled(once[i].host) {
      assert entries[i] == once[i];
      SettledIffFixed(once[i].host);
    }
  }

  // ----- Lists put together

  /** Normalising the parts first makes no difference, as long as their
      normalised hosts are settled. */
  lemma NormalizeConcat(a: seq<ServerEndpoint>, b: seq<ServerEndpoint>, defaultPort: int)
    requires defaultPort > 0
    requires AllSettled(Normalize(a, defaultPort)) && AllSettled(Normalize(b, defaultPort))
    ensures Normalize(Normalize(a, defaultPort) + Normalize(b, defaultPort), defaultPort) ==
            Normalize(a + b, defaultPort)
  {
    var x, y := Normalize(a, defaultPort), Normalize(b, defaultPort);
    NothingStandsForNothing(defaultPort);
    hide Normalize, StandsFor, AllSettled;
    JoinNormalized([], [], x, a, defaultPort);
    assert [] + x == x && [] + a == a;
    JoinNormalized(x, a, y, b, defaultPort);
  }

  /** Where no server is in both lists, that condition is exact. */
  lemma NormalizeConcatExactly(a: seq<ServerEndpoint>, b: seq<ServerEndpoint>, defaultPort: int)
    requires defaultPort > 0
    requires var x, y := Normalize(a, defaultPort), Normalize(b, defaultPort);
             forall i, j :: 0 <= i < |x| && 0 <= j < |y| ==> !SameEndpoint(x[i], y[j])
    ensures var x, y := Normalize(a, defaultPort), Normalize(b, defaultPort);
            Normalize(x + y, defaultPort) == Normalize(a + b, defaultPort) <==> AllSettled(x) && AllSettled(y)
  {
    hide *;
    var x, y := Normalize(a, defaultPort), Normalize(b, defaultPort);
    NormalizedAreDistinct(a, defaultPort);
    NormalizedAreDistinct(b, defaultPort);
    KeysOfNormalized(a, defaultPort);
    DistinctConcat(x, y);
    NewServersStay(y, x);
    AppendNormalized(a, b, defaultPort);
    FixedIffSettled(x + y, defaultPort);
    SettledConcat(x, y);
  }

  lemma DistinctConcat(x: seq<ServerEndpoint>, y: seq<ServerEndpoint>)
    requires Distinct(x) && Distinct(y)
    requires forall i, j :: 0 <= i < |x| && 0 <= j < |y| ==> !SameEndpoint(x[i], y[j])
    ensures Distinct(x + y) && DuplicateFree(y) && forall j :: 0 <= j < |y| ==> y[j].host != ""
  {
  }

  lemma SettledConcat(x: seq<ServerEndpoint>, y: seq<ServerEndpoint>)
    ensures AllSettled(x + y) <==> AllSettled(x) && AllSettled(y)
  {
    hide Settled;
    if AllSettled(x + y) {
      forall i | 0 <= i < |x| ensures Settled(x[i].host) && x[i].port > 0 {
        assert (x + y)[i] == x[i];
      }
      forall i | 0 <= i < |y| ensures Settled(y[i].host) && y[i].port > 0 {
        assert (x + y)[|x| + i] == y[i];
      }
    }
  }

  /** Servers that come once, each with a host and a port. */
  ghost predicate Distinct(list: seq<ServerEndpoint>) {
    DuplicateFree(list) && forall i :: 0 <= i < |list| ==> list[i].host != "" && list[i].port > 0
  }

  lemma NormalizedAreDistinct(servers: seq<ServerEndpoint>, defaultPort: int)
    requires defaultPort > 0
    ensures Distinct(Normalize(servers, defaultPort))
  {
    NormalizedList(CleanAll(servers, defaultPort), |servers|);
    NormalizedPorts(servers, defaultPort);
    hide SameEndpoint;
  }

  lemma FixedIffSettled(list: seq<ServerEndpoint>, defaultPort: int)
    requires Distinct(list)
    ensures Normalize(list, defaultPort) == list <==> AllSettled(list)
  {
    hide Normalize, SameEndpoint, Settled;
    if AllSettled(list) {
      SettledIsClean(list, defaultPort);
      DistinctAreFirsts(list, |list|);
      NormalizeClean(list, defaultPort);
    }
    if Normalize(list, defaultPort) == list {
      FixedIsSettled(list, defaultPort);
    }
  }

  lemma NormalizeClean(list: seq<ServerEndpoint>, defaultPort: int)
    requires CleanAll(list, defaultPort) == list && Firsts(list, |list|) == list[..|list|]
    ensures Normalize(list, defaultPort) == list
  {
  }

  lemma KeysOfNormalized(a: seq<ServerEndpoint>, defaultPort: int)
    ensures Keys(Normalize(a, defaultPort)) == Keys(CleanAll(a, defaultPort))
  {
    NormalizeIsDedup(a, defaultPort);
    hide Normalize, Dedup, CleanAll, Key;
    var cleanA := CleanAll(a, defaultPort);
    DedupKeys(cleanA, {});
    assert Keys(Dedup(cleanA, {})) + {} == Keys(Dedup(cleanA, {})) && Keys(cleanA) + {} == Keys(cleanA);
  }

  lemma AppendNormalized(a: seq<ServerEndpoint>, b: seq<ServerEndpoint>, defaultPort: int)
    ensures Normalize(a + b, defaultPort) ==
            Normalize(a, defaultPort) + Dedup(Normalize(b, defaultPort), Keys(CleanAll(a, defaultPort)))
  {
    hide Normalize, Dedup, CleanAll, Clean, Key;
    var cleanA, cleanB := CleanAll(a, defaultPort), CleanAll(b, defaultPort);
    assert CleanAll(a + b, defaultPort) == cleanA + cleanB;
    NormalizeIsDedup(a, defaultPort);
    NormalizeIsDedup(b, defaultPort);
    NormalizeIsDedup(a + b, defaultPort);
    DedupConcat(cleanA, cleanB, {});
    DedupDedup(cleanB, {}, Keys(cleanA));
    assert {} + Keys(cleanA) == Keys(cleanA);
  }

  /** Servers that come once and are new all stay. */
  lemma {:induction false} NewServersStay(y: seq<ServerEndpoint>, x: seq<ServerEndpoint>)
    requires DuplicateFree(y) && forall j :: 0 <= j < |y| ==> y[j].host != ""
    requires forall i, j :: 0 <= i < |x| && 0 <= j < |y| ==> !SameEndpoint(x[i], y[j])
    ensures Dedup(y, Keys(x)) == y
    decreases |y|
  {
    hide Key, SameEndpoint;
    if y == [] {
    } else {
      var e := y[0];
      assert Key(e) !in Keys(x) by {
        if Key(e) in Keys(x) {
          var s :| s in x && s.host != "" && Key(s) == Key(e);
          KeyIdentifiesServer(s, e);
        }
      }
      var more := x + [e];
      KeysConcat(x, [e]);
      KeysFirst([e]);
      assert Keys(more) == Keys(x) + {Key(e)};
      forall i, j | 0 <= i < |more| && 0 <= j < |y[1..]| ensures !SameEndpoint(more[i], y[1..][j]) {
        assert y[1..][j] == y[j + 1];
      }
      NewServersStay(y[1..], more);
    }
  }

  /** Servers that come once are all first occurrences. */
  lemma {:induction false} DistinctAreFirsts(list: seq<ServerEndpoint>, n: nat)
    requires n <= |list| && DuplicateFree(list) && forall i :: 0 <= i < |list| ==> list[i].host != ""
    ensures Firsts(list, n) == list[..n]
  {
    hide Key, SameEndpoint;
    if n == 0 {
    } else {
      DistinctAreFirsts(list, n - 1);
      forall j | 0 <= j < n - 1 ensures Key(list[j]) != Key(list[n - 1]) {
        KeyIdentifiesServer(list[j], list[n - 1]);
      }
      assert list[..n] == list[..n - 1] + [list[n - 1]];
    }
  }

  /** `flat` stands for `raw`: it is clean, and equal to it after removing duplicates. */
  ghost predicate StandsFor(flat: seq<ServerEndpoint>, raw: seq<ServerEndpoint>, defaultPort: int) {
    && AllSettled(flat)
    && Dedup(flat, {}) == Dedup(CleanAll(raw, defaultPort), {})
    && Keys(flat) == Keys(CleanAll(raw, defaultPort))
  }

  lemma JoinNormalized(flat: seq<ServerEndpoint>, raw: seq<ServerEndpoint>, x: seq<ServerEndpoint>,
                       a: seq<ServerEndpoint>, defaultPort: int)
    requires StandsFor(flat, raw, defaultPort) && x == Normalize(a, defaultPort) && AllSettled(x)
    ensures StandsFor(flat + x, raw + a, defaultPort)
    ensures Normalize(flat + x, defaultPort) == Normalize(raw + a, defaultPort)
  {
    hide Key, Clean, Settled;
    var cleanRaw, cleanA := CleanAll(raw, defaultPort), CleanAll(a, defaultPort);
    assert CleanAll(raw + a, defaultPort) == cleanRaw + cleanA;
    NormalizeIsDedup(a, defaultPort);
    DedupConcat(flat, x, {});
    DedupConcat(cleanRaw, cleanA, {});
    DedupDedup(cleanA, {}, Keys(flat));
    assert {} + Keys(flat) == Keys(flat);
    DedupKeys(cleanA, {});
    assert Keys(x) == Keys(cleanA) by {
      assert Keys(x) + {} == Keys(x) && Keys(cleanA) + {} == Keys(cleanA);
    }
    KeysConcat(flat, x);
    KeysConcat(cleanRaw, cleanA);
    SettledIsClean(flat + x, defaultPort);
    NormalizeIsDedup(flat + x, defaultPort);
    NormalizeIsDedup(raw + a, defaultPort);
  }

  /** The groups one after another, each normalised; and as they are. */
  function Flat(groups: seq<seq<ServerEndpoint>>, defaultPort: int): seq<ServerEndpoint> {
    if groups == [] then []
    else Flat(groups[..|groups| - 1], defaultPort) + Normalize(groups[|groups| - 1], defaultPort)
  }

  function Raw(groups: seq<seq<ServerEndpoint>>): seq<ServerEndpoint> {
    if groups == [] then [] else Raw(groups[..|groups| - 1]) + groups[|groups| - 1]
  }

  /** flattenLegacyServerGroups, on the server lists of the groups. */
  method FlattenLegacyServerGroups(groups: seq<seq<ServerEndpoint>>, defaultPort: int)
    returns (out: seq<ServerEndpoint>)
    ensures out == Normalize(Flat(groups, defaultPort), defaultPort)
  {
    out := [];
    for i := 0 to |groups|
      invariant out == Flat(groups[..i], defaultPort)
    {
      assert groups[..i + 1][..i] == groups[..i];
      var servers := NormalizeServerEndpoints(groups[i], defaultPort);
      out := out + servers;
    }
    assert groups[..|groups|] == groups;
    out := NormalizeServerEndpoints(out, defaultPort);
  }

  /** Flattening legacy groups is normalising their concatenation, as long as the
      normalised hosts are settled. */
  lemma {:induction false} FlattenIsConcat(groups: seq<seq<ServerEndpoint>>, defaultPort: int)
    requires defaultPort > 0
    requires forall g :: 0 <= g < |groups| ==> AllSettled(Normalize(groups[g], defaultPort))
    ensures StandsFor(Flat(groups, defaultPort), Raw(groups), defaultPort)
    ensures Normalize(Flat(groups, defaultPort), defaultPort) == Normalize(Raw(groups), defaultPort)
  {
    hide Normalize, StandsFor, AllSettled;
    if groups == [] {
      NothingStandsForNothing(defaultPort);
    } else {
      var n := |groups| - 1;
      FlattenIsConcat(groups[..n], defaultPort);
      var earlier, last := groups[..n], groups[n];
      JoinNormalized(Flat(earlier, defaultPort), Raw(earlier), Normalize(last, defaultPort), last, defaultPort);
    }
  }

  lemma NothingStandsForNothing(defaultPort: int)
    ensures StandsFor([], [], defaultPort)
  {
  }
}
