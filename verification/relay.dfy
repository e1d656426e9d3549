/**
 * The MAVLink relay's book-keeping: which sockets follow which drone, and the focus
 * commands it issues when a drone gains its first follower or loses its last.
 */
module Relay {
  /** A socket, by its connection number. */
  type Socket = nat

  datatype Command = SAdd(droneId: string) | SRem(droneId: string)

  /** `drone:focus_set` after a list of commands on an empty set. */
  function Focused(commands: seq<Command>): set<string> {
    if commands == [] then {}
    else
      var before, c := Focused(commands[..|commands| - 1]), commands[|commands| - 1];
      if c.SAdd? then before + {c.droneId} else before - {c.droneId}
  }

  /** How often drone `d` was added more than removed. */
  function Balance(commands: seq<Command>, d: string): int {
    if commands == [] then 0 else Balance(commands[..|commands| - 1], d) + Weight(commands[|commands| - 1], d)
  }

  function Weight(c: Command, d: string): int {
    if c.droneId != d then 0 else if c.SAdd? then 1 else -1
  }

  lemma Issued(commands: seq<Command>, c: Command)
    ensures Focused(commands + [c]) == if c.SAdd? then Focused(commands) + {c.droneId} else Focused(commands) - {c.droneId}
    ensures forall d :: Balance(commands + [c], d) == Balance(commands, d) + Weight(c, d)
  {
    assert (commands + [c])[..|commands|] == commands;
  }

  // ------------------------------------------------------ specification

  /** Followers of each drone, the drone noted on each socket, connections waiting for the ownership check, and commands issued. */
  datatype State = State(clients: map<string, set<Socket>>, droneOf: map<Socket, string>,
                         waiting: map<Socket, string>, commands: seq<Command>)

  const INITIAL := State(map[], map[], map[], [])

  /** What verifying the token gives: nothing, an administrator, or a pilot whose drone must still be looked up. */
  datatype Verdict = Refused | Admin | Pilot

  datatype Event =
    | Connect(client: Socket, droneId: string, rawToken: string, verdict: Verdict)
    | Checked(client: Socket, owned: bool)
    | Disconnect(client: Socket)

  function BareToken(rawToken: string): string {
    if "Bearer " <= rawToken then rawToken[7..] else rawToken
  }

  function Followers(s: State, d: string): set<Socket> {
    if d in s.clients then s.clients[d] else {}
  }

  /** The socket joins the drone's followers; a first follower focuses the drone. */
  function Joined(s: State, client: Socket, d: string): State {
    var followers := Followers(s, d) + {client};
    State(s.clients[d := followers], s.droneOf[client := d], s.waiting,
          if |followers| == 1 then s.commands + [SAdd(d)] else s.commands)
  }

  /** The socket leaves the drone noted on it; the last follower takes the focus along. */
  function Parted(s: State, client: Socket): State {
    if client !in s.droneOf || s.droneOf[client] !in s.clients then s
    else
      var d := s.droneOf[client];
      var followers := s.clients[d] - {client};
      if followers == {} then s.(clients := s.clients - {d}, commands := s.commands + [SRem(d)])
      else s.(clients := s.clients[d := followers])
  }

  function Step(s: State, e: Event): State {
    match e
    case Connect(client, d, rawToken, verdict) =>
      if d == "" || BareToken(rawToken) == "" || verdict.Refused? then s
      else if verdict.Admin? then Joined(s, client, d)
      else s.(waiting := s.waiting[client := d])
    case Checked(client, owned) =>
      if client !in s.waiting then s
      else
        var resumed := s.(waiting := s.waiting - {client});
        if owned then Joined(resumed, client, s.waiting[client]) else resumed
    case Disconnect(client) => Parted(s, client)
  }

  class MavlinkRelayGateway {
    var droneClients: map<string, set<Socket>>
    /** `client.data.droneId` */
    var droneOf: map<Socket, string>
    /** Connections suspended at the device lookup, with their drone. */
    var waiting: map<Socket, string>
    var commands: seq<Command>

    constructor ()
      ensures View() == INITIAL
    {
      droneClients, droneOf, waiting, commands := map[], map[], map[], [];
    }

    function View(): State
      reads this
    {
      State(droneClients, droneOf, waiting, commands)
    }

    /** Up to the device lookup for a pilot, to the end for an administrator. */
    method HandleConnection(client: Socket, droneId: string, rawToken: string, verdict: Verdict)
      modifies this
      ensures View() == Step(old(View()), Connect(client, droneId, rawToken, verdict))
    {
      if droneId == "" {
        return;
      }
      var token := rawToken;
      if token != "" && "Bearer " <= token {
        token := token[7..];
      }
      if token == "" {
        return;
      }
      if verdict.Refused? {
        return;
      }
      if verdict.Pilot? {
        waiting := waiting[client := droneId];
        return;
      }
      Register(client, droneId);
    }

    /** The lookup is done: `owned` says that it found the pilot's own device. */
    method ResumeConnection(client: Socket, owned: bool)
      modifies this
      ensures View() == Step(old(View()), Checked(client, owned))
    {
      if client !in waiting {
        return;
      }
      var droneId := waiting[client];
      waiting := waiting - {client};
      if !owned {
        return;
      }
      Register(client, droneId);
    }

    method Register(client: Socket, droneId: string)
      modifies this
      ensures View() == Joined(old(View()), client, droneId)
    {
      droneOf := droneOf[client := droneId];
      if droneId !in droneClients {
        droneClients := droneClients[droneId := {}];
      }
      droneClients := droneClients[droneId := droneClients[droneId] + {client}];
      if |droneClients[droneId]| == 1 {
        commands := commands + [SAdd(droneId)];
      }
    }

    method HandleDisconnect(client: Socket)
      modifies this
      ensures View() == Step(old(View()), Disconnect(client))
    {
      if client in droneOf && droneOf[client] in droneClients {
        var droneId := droneOf[client];
        droneClients := droneClients[droneId := droneClients[droneId] - {client}];
        if |droneClients[droneId]| == 0 {
          droneClients := droneClients - {droneId};
          commands := commands + [SRem(droneId)];
        }
      }
    }
  }

  // ---------------------------------------------------------------- runs

  /** A socket connects when it is neither waiting nor registered before. */
  predicate Allowed(s: State, e: Event) {
    e.Connect? ==> e.client !in s.waiting && e.client !in s.droneOf
  }

  predicate Follows(states: seq<State>, trace: seq<Event>, i: nat) {
    i < |trace| && i + 1 < |states| && Allowed(states[i], trace[i]) && states[i + 1] == Step(states[i], trace[i])
  }

  predicate IsRun(states: seq<State>, trace: seq<Event>) {
    |states| == |trace| + 1 && states[0] == INITIAL && forall i: nat :: i < |trace| ==> Follows(states, trace, i)
  }

  predicate Registered(s: State, client: Socket, d: string) {
    client in Followers(s, d)
  }

  /** The commands focus exactly the drones with an entry, each added once more than removed. */
  ghost predicate FocusMatches(drones: set<string>, commands: seq<Command>) {
    Focused(commands) == drones && forall d :: Balance(commands, d) == if d in drones then 1 else 0
  }

  /** Every follower's socket notes the drone, and has been checked. */
  ghost predicate Noted(s: State) {
    && (forall d, c :: Registered(s, c, d) ==> c in s.droneOf && s.droneOf[c] == d)
    && (forall c :: c in s.waiting ==> c !in s.droneOf && s.waiting[c] != "")
  }

  predicate Inhabited(clients: map<string, set<Socket>>) {
    forall d :: d in clients ==> clients[d] != {} && d != ""
  }

  ghost predicate Sound(s: State) {
    && Inhabited(s.clients)
    && Noted(s)
    && FocusMatches(s.clients.Keys, s.commands)
  }

  lemma OneFollower(followers: set<Socket>, client: Socket)
    ensures |followers + {client}| == 1 <==> followers <= {client}
  {
    var all := followers + {client};
    if followers <= {client} {
      assert all == {client};
    } else {
      var other :| other in followers && other != client;
      assert |all - {client} - {other}| == |all| - 2;
    }
  }

  lemma JoinedFollowers(s: State, client: Socket, d: string)
    ensures forall c, e :: Registered(Joined(s, client, d), c, e) <==> Registered(s, c, e) || (c == client && e == d)
  {
  }

  lemma JoinedSound(s: State, client: Socket, d: string)
    requires Sound(s) && client !in s.waiting && client !in s.droneOf && d != ""
    ensures Sound(Joined(s, client, d))
  {
    JoinedNoted(s, client, d);
    JoinedCommands(s, client, d);
    JoinedFocus(s.clients.Keys, s.commands, d);
    JoinedEntries(s, client, d);
  }

  lemma JoinedEntries(s: State, client: Socket, d: string)
    requires Inhabited(s.clients) && d != ""
    ensures Inhabited(Joined(s, client, d).clients)
    ensures Joined(s, client, d).clients.Keys == s.clients.Keys + {d}
  {
    assert client in Joined(s, client, d).clients[d];
  }

  lemma JoinedNoted(s: State, client: Socket, d: string)
    requires Noted(s) && client !in s.waiting && client !in s.droneOf
    ensures Noted(Joined(s, client, d))
  {
    JoinedFollowers(s, client, d);
  }

  /** Exactly the first follower of a drone focuses it. */
  lemma JoinedCommands(s: State, client: Socket, d: string)
    requires Sound(s) && client !in s.droneOf
    ensures Joined(s, client, d).commands == if d in s.clients then s.commands else s.commands + [SAdd(d)]
  {
    assert !Registered(s, client, d);
    OneFollower(Followers(s, d), client);
    if d in s.clients {
      var c :| c in s.clients[d];
      assert c in Followers(s, d) && c != client;
    }
  }

  lemma JoinedFocus(drones: set<string>, commands: seq<Command>, d: string)
    requires FocusMatches(drones, commands)
    ensures FocusMatches(drones + {d}, if d in drones then commands else commands + [SAdd(d)])
    ensures d in drones ==> FocusMatches(drones - {d}, commands + [SRem(d)])
  {
    Issued(commands, SAdd(d));
    Issued(commands, SRem(d));
    assert d in drones ==> drones + {d} == drones;
  }

  lemma PartedFollowers(s: State, client: Socket)
    requires Noted(s)
    ensures forall c, e :: Registered(Parted(s, client), c, e) <==> Registered(s, c, e) && c != client
  {
    assert forall d :: Registered(s, client, d) ==> client in s.droneOf && s.droneOf[client] == d;
  }

  lemma PartedSound(s: State, client: Socket)
    requires Sound(s)
    ensures Sound(Parted(s, client))
  {
    PartedFollowers(s, client);
    var t := Parted(s, client);
    assert Noted(t);
    if client in s.droneOf {
      JoinedFocus(s.clients.Keys, s.commands, s.droneOf[client]);
    }
  }

  lemma ResumedSound(s: State, client: Socket)
    requires Sound(s)
    ensures Sound(s.(waiting := s.waiting - {client}))
  {
    assert forall d, c :: Registered(s.(waiting := s.waiting - {client}), c, d) <==> Registered(s, c, d);
  }

  lemma WaitingSound(s: State, client: Socket, d: string)
    requires Sound(s) && client !in s.droneOf && d != ""
    ensures Sound(s.(waiting := s.waiting[client := d]))
  {
    var t := s.(waiting := s.waiting[client := d]);
    assert forall e, c :: Registered(t, c, e) <==> Registered(s, c, e);
    assert Noted(t);
  }

  lemma ConnectSound(s: State, client: Socket, d: string, rawToken: string, verdict: Verdict)
    requires Sound(s) && client !in s.waiting && client !in s.droneOf
    ensures Sound(Step(s, Connect(client, d, rawToken, verdict)))
  {
    if d != "" {
      WaitingSound(s, client, d);
      JoinedSound(s, client, d);
    }
  }

  lemma CheckedSound(s: State, client: Socket, owned: bool)
    requires Sound(s)
    ensures Sound(Step(s, Checked(client, owned)))
  {
    if client in s.waiting {
      ResumedSound(s, client);
      JoinedSound(s.(waiting := s.waiting - {client}), client, s.waiting[client]);
    }
  }

  lemma SoundKept(s: State, e: Event)
    requires Sound(s) && Allowed(s, e)
    ensures Sound(Step(s, e))
  {
    match e
    case Connect(client, d, rawToken, verdict) => ConnectSound(s, client, d, rawToken, verdict);
    case Checked(client, owned) => CheckedSound(s, client, owned);
    case Disconnect(client) => PartedSound(s, client);
  }

  lemma {:induction false} SoundAlways(states: seq<State>, trace: seq<Event>, n: nat)
    requires IsRun(states, trace) && n < |states|
    ensures Sound(states[n])
  {
    if n > 0 {
      SoundAlways(states, trace, n - 1);
      assert Follows(states, trace, n - 1);
      SoundKept(states[n - 1], trace[n - 1]);
    }
  }

  /**
   * Over every interleaving of connections, split at the ownership check, and disconnections:
   * no drone has an empty set of followers, the commands issued so far focus exactly the
   * drones with a registered socket, and no drone is added or removed twice in a row.
   */
  lemma FocusIsFollowed(states: seq<State>, trace: seq<Event>, n: nat, d: string)
    requires IsRun(states, trace) && n < |states|
    ensures d in states[n].clients ==> states[n].clients[d] != {}
    ensures d in Focused(states[n].commands) <==> exists c :: Registered(states[n], c, d)
    ensures 0 <= Balance(states[n].commands, d) <= 1
  {
    SoundAlways(states, trace, n);
    var s := states[n];
    if d in s.clients {
      var c :| c in s.clients[d];
      assert Registered(s, c, d);
    }
  }

  // -------------------------------------------------------------- ghosts

  predicate DisconnectedAt(trace: seq<Event>, k: nat, c: Socket) {
    k < |trace| && trace[k] == Disconnect(c)
  }

  /** No connect or disconnect of socket `c` in `from..to`. */
  predicate Gone(trace: seq<Event>, from: nat, to: nat, c: Socket) {
    forall i: nat :: from <= i < to && i < |trace| && (trace[i].Connect? || trace[i].Disconnect?) ==> trace[i].client != c
  }

  /** The ownership check that is waiting at `k` is done in `k..n`, in the pilot's favour. */
  predicate GrantedLate(states: seq<State>, trace: seq<Event>, k: nat, n: nat, c: Socket) {
    k < |states| && c in states[k].waiting && k <= n <= |trace| && LateGrant(trace, k, n, c)
  }

  /** The first check of `c` in `k..n` succeeds. */
  predicate LateGrant(trace: seq<Event>, k: nat, n: nat, c: Socket)
    requires k <= n <= |trace|
    decreases n - k
  {
    k < n && if trace[k].Checked? && trace[k].client == c then trace[k].owned else LateGrant(trace, k + 1, n, c)
  }

  lemma StepOfOthers(s: State, e: Event, c: Socket)
    requires Noted(s) && Allowed(s, e) && e.client != c
    ensures c in Step(s, e).waiting <==> c in s.waiting
    ensures forall d :: Registered(Step(s, e), c, d) <==> Registered(s, c, d)
  {
    match e
    case Connect(client, d, _, _) => JoinedFollowers(s, client, d);
    case Checked(client, _) =>
      if client in s.waiting {
        JoinedFollowers(s.(waiting := s.waiting - {client}), client, s.waiting[client]);
      }
    case Disconnect(client) => PartedFollowers(s, client);
  }

  ghost predicate RegisteredSomewhere(s: State, c: Socket) {
    exists d :: Registered(s, c, d)
  }

  lemma StepOfChecked(s: State, owned: bool, c: Socket)
    requires Sound(s)
    ensures var t := Step(s, Checked(c, owned));
      && c !in t.waiting
      && (RegisteredSomewhere(t, c) <==> RegisteredSomewhere(s, c) || (c in s.waiting && owned))
  {
    var t := Step(s, Checked(c, owned));
    if c in s.waiting {
      assert owned ==> Registered(t, c, s.waiting[c]);
      assert !owned ==> forall d :: Registered(t, c, d) <==> Registered(s, c, d);
      assert forall d :: !Registered(s, c, d);
    }
  }

  /** From `k` on without connect or disconnect, `c` is registered if it was, or if its waiting check succeeds. */
  lemma {:induction false} RegisteredLater(states: seq<State>, trace: seq<Event>, k: nat, n: nat, c: Socket)
    requires IsRun(states, trace) && k <= n < |states| && Gone(trace, k, n, c)
    ensures RegisteredSomewhere(states[n], c) <==>
      RegisteredSomewhere(states[k], c) || (c in states[k].waiting && LateGrant(trace, k, n, c))
    decreases n - k
  {
    if k < n {
      SoundAlways(states, trace, k);
      assert Follows(states, trace, k);
      RegisteredLater(states, trace, k + 1, n, c);
      if trace[k].client == c {
        StepOfChecked(states[k], trace[k].owned, c);
      } else {
        StepOfOthers(states[k], trace[k], c);
        assert RegisteredSomewhere(states[k + 1], c) <==> RegisteredSomewhere(states[k], c);
      }
    }
  }

  /**
   * A socket that has disconnected for good is still registered exactly when it disconnected
   * while its ownership check was waiting and the check then succeeded.
   */
  lemma StaysRegisteredIff(states: seq<State>, trace: seq<Event>, k: nat, n: nat, c: Socket)
    requires IsRun(states, trace) && k < n < |states| && DisconnectedAt(trace, k, c) && Gone(trace, k + 1, n, c)
    ensures RegisteredSomewhere(states[n], c) <==> GrantedLate(states, trace, k + 1, n, c)
    ensures c in states[k + 1].waiting <==> c in states[k].waiting
  {
    SoundAlways(states, trace, k);
    assert Follows(states, trace, k);
    PartedFollowers(states[k], c);
    RegisteredLater(states, trace, k + 1, n, c);
  }

  /** Such a socket keeps its drone focused for ever: nothing removes it. */
  lemma GhostHoldsFocus(states: seq<State>, trace: seq<Event>, k: nat, n: nat, m: nat, c: Socket)
    requires IsRun(states, trace) && k < n <= m < |states| && DisconnectedAt(trace, k, c) && Gone(trace, k + 1, m, c)
    requires GrantedLate(states, trace, k + 1, n, c)
    ensures exists d :: d in Focused(states[m].commands) && Registered(states[m], c, d)
  {
    StaysRegisteredIff(states, trace, k, n, c);
    RegisteredLater(states, trace, n, m, c);
    var d :| Registered(states[m], c, d);
    FocusIsFollowed(states, trace, m, d);
  }

  // -------------------------------------------------- who is registered

  /** A connection that names a drone and brings a token behind the optional scheme. */
  predicate Presents(e: Event, c: Socket, d: string) {
    e.Connect? && e.client == c && e.droneId == d && d != "" && e.rawToken != "" && e.rawToken != "Bearer "
  }

  predicate ConnectsAt(trace: seq<Event>, k: nat, c: Socket) {
    k < |trace| && trace[k].Connect? && trace[k].client == c
  }

  predicate CheckedAt(trace: seq<Event>, k: nat, c: Socket) {
    k < |trace| && trace[k].Checked? && trace[k].client == c
  }

  /** Event `k` is the last connection of socket `c` before `n`. */
  predicate IsLastConnect(trace: seq<Event>, n: nat, k: nat, c: Socket) {
    k < n && ConnectsAt(trace, k, c) && forall j: nat :: k < j < n ==> !ConnectsAt(trace, j, c)
  }

  /** At its last connection, `k`, a pilot asked for `d`, and no check of it has been made since. */
  predicate AwaitsSince(trace: seq<Event>, n: nat, k: nat, c: Socket, d: string) {
    && n <= |trace| && IsLastConnect(trace, n, k, c) && Presents(trace[k], c, d) && trace[k].verdict.Pilot?
    && forall j: nat :: k < j < n ==> !CheckedAt(trace, j, c)
  }

  /**
   * At its last connection, `k`, the socket asked for `d`, and at `g` it was let in: at once as an
   * administrator, or as a pilot by the first check since, which succeeded.
   */
  predicate LetInAt(trace: seq<Event>, n: nat, k: nat, g: nat, c: Socket, d: string) {
    && n <= |trace| && IsLastConnect(trace, n, k, c) && Presents(trace[k], c, d) && k <= g < n
    && (if g == k then trace[k].verdict.Admin?
        else trace[k].verdict.Pilot? && trace[g] == Checked(c, true) && forall j: nat :: k < j < g ==> !CheckedAt(trace, j, c))
  }

  /** Let in, and not disconnected since. */
  predicate PresentSince(trace: seq<Event>, n: nat, k: nat, g: nat, c: Socket, d: string) {
    LetInAt(trace, n, k, g, c, d) && forall j: nat :: g < j < n ==> !DisconnectedAt(trace, j, c)
  }

  ghost predicate Awaits(trace: seq<Event>, n: nat, c: Socket, d: string) {
    exists k: nat :: AwaitsSince(trace, n, k, c, d)
  }

  ghost predicate Present(trace: seq<Event>, n: nat, c: Socket, d: string) {
    exists k: nat, g: nat :: PresentSince(trace, n, k, g, c, d)
  }

  predicate Waiting(s: State, c: Socket, d: string) {
    c in s.waiting && s.waiting[c] == d
  }

  /** An event that is no connection of the socket keeps its last connection. */
  lemma LastConnectKept(trace: seq<Event>, n: nat, k: nat, c: Socket)
    requires n < |trace| && !ConnectsAt(trace, n, c)
    ensures IsLastConnect(trace, n + 1, k, c) <==> IsLastConnect(trace, n, k, c)
  {
  }

  /** An event that is neither connection nor check of the socket keeps it waiting. */
  lemma AwaitsKept(trace: seq<Event>, n: nat, c: Socket, d: string)
    requires n < |trace| && !ConnectsAt(trace, n, c) && !CheckedAt(trace, n, c)
    ensures Awaits(trace, n + 1, c, d) <==> Awaits(trace, n, c, d)
  {
    var m := n + 1;
    forall k: nat
      ensures AwaitsSince(trace, m, k, c, d) <==> AwaitsSince(trace, n, k, c, d)
    {
      LastConnectKept(trace, n, k, c);
    }
  }

  lemma LetInKept(trace: seq<Event>, n: nat, k: nat, g: nat, c: Socket, d: string)
    requires n < |trace| && !ConnectsAt(trace, n, c)
    ensures LetInAt(trace, n + 1, k, g, c, d) <==>
      LetInAt(trace, n, k, g, c, d) || (g == n && trace[n] == Checked(c, true) && AwaitsSince(trace, n, k, c, d))
  {
    LastConnectKept(trace, n, k, c);
  }

  /** Events of other sockets change neither side. */
  lemma HistoryOfOthers(trace: seq<Event>, n: nat, c: Socket, d: string)
    requires n < |trace| && trace[n].client != c
    ensures Awaits(trace, n + 1, c, d) <==> Awaits(trace, n, c, d)
    ensures Present(trace, n + 1, c, d) <==> Present(trace, n, c, d)
  {
    AwaitsKept(trace, n, c, d);
    var m := n + 1;
    forall k: nat, g: nat
      ensures PresentSince(trace, m, k, g, c, d) <==> PresentSince(trace, n, k, g, c, d)
    {
      LetInKept(trace, n, k, g, c, d);
      assert !DisconnectedAt(trace, n, c);
    }
  }

  lemma HistoryOfConnect(trace: seq<Event>, n: nat, c: Socket, d: string)
    requires ConnectsAt(trace, n, c)
    ensures Awaits(trace, n + 1, c, d) <==> Presents(trace[n], c, d) && trace[n].verdict.Pilot?
    ensures Present(trace, n + 1, c, d) <==> Presents(trace[n], c, d) && trace[n].verdict.Admin?
  {
    var m := n + 1;
    forall k: nat | IsLastConnect(trace, m, k, c)
      ensures k == n
    {
    }
    assert IsLastConnect(trace, m, n, c);
    assert Presents(trace[n], c, d) && trace[n].verdict.Pilot? ==> AwaitsSince(trace, m, n, c, d);
    assert Presents(trace[n], c, d) && trace[n].verdict.Admin? ==> PresentSince(trace, m, n, n, c, d);
  }

  lemma HistoryOfCheck(trace: seq<Event>, n: nat, c: Socket, d: string)
    requires CheckedAt(trace, n, c)
    ensures !Awaits(trace, n + 1, c, d)
    ensures Present(trace, n + 1, c, d) <==> Present(trace, n, c, d) || (trace[n].owned && Awaits(trace, n, c, d))
  {
    var m := n + 1;
    forall k: nat, g: nat
      ensures PresentSince(trace, m, k, g, c, d) <==>
        PresentSince(trace, n, k, g, c, d) || (g == n && trace[n].owned && AwaitsSince(trace, n, k, c, d))
    {
      LetInKept(trace, n, k, g, c, d);
      assert !DisconnectedAt(trace, n, c);
    }
    if k: nat :| AwaitsSince(trace, n, k, c, d) {
      assert trace[n].owned ==> PresentSince(trace, m, k, n, c, d);
    }
    if k: nat, g: nat :| PresentSince(trace, n, k, g, c, d) {
      assert PresentSince(trace, m, k, g, c, d);
    }
  }

  lemma HistoryOfDisconnect(trace: seq<Event>, n: nat, c: Socket, d: string)
    requires DisconnectedAt(trace, n, c)
    ensures Awaits(trace, n + 1, c, d) <==> Awaits(trace, n, c, d)
    ensures !Present(trace, n + 1, c, d)
  {
    AwaitsKept(trace, n, c, d);
    var m := n + 1;
    forall k: nat, g: nat
      ensures !PresentSince(trace, m, k, g, c, d)
    {
      LetInKept(trace, n, k, g, c, d);
    }
  }

  lemma StateOfOthers(s: State, e: Event, c: Socket, d: string)
    requires Noted(s) && Allowed(s, e) && e.client != c
    ensures Waiting(Step(s, e), c, d) <==> Waiting(s, c, d)
    ensures Registered(Step(s, e), c, d) <==> Registered(s, c, d)
  {
    StepOfOthers(s, e, c);
  }

  lemma StateOfConnect(s: State, e: Event, d: string)
    requires Noted(s) && e.Connect? && Allowed(s, e)
    ensures Waiting(Step(s, e), e.client, d) <==> Presents(e, e.client, d) && e.verdict.Pilot?
    ensures Registered(Step(s, e), e.client, d) <==> Presents(e, e.client, d) && e.verdict.Admin?
  {
    assert !Registered(s, e.client, d);
    JoinedFollowers(s, e.client, e.droneId);
    BareTokenEmpty(e.rawToken);
  }

  lemma BareTokenEmpty(raw: string)
    ensures BareToken(raw) == "" <==> raw == "" || raw == "Bearer "
  {
    assert "Bearer " <= raw ==> raw == "Bearer " + raw[7..];
  }

  lemma StateOfCheck(s: State, owned: bool, c: Socket, d: string)
    requires Noted(s)
    ensures !Waiting(Step(s, Checked(c, owned)), c, d)
    ensures Registered(Step(s, Checked(c, owned)), c, d) <==> Registered(s, c, d) || (owned && Waiting(s, c, d))
  {
    if c in s.waiting {
      assert !Registered(s, c, d);
      JoinedFollowers(s.(waiting := s.waiting - {c}), c, s.waiting[c]);
    }
  }

  /**
   * Who is registered, and who waits, over every run, told from the events alone: a socket follows
   * `d` exactly when at its last connection it named `d` and brought a token, was let in as an
   * administrator or as a pilot by the first check since, and has not disconnected after that.
   */
  lemma {:induction false} RegisteredIffLetIn(states: seq<State>, trace: seq<Event>, n: nat, c: Socket, d: string)
    requires IsRun(states, trace) && n < |states|
    ensures Registered(states[n], c, d) <==> Present(trace, n, c, d)
    ensures Waiting(states[n], c, d) <==> Awaits(trace, n, c, d)
  {
    if n > 0 {
      var p := n - 1;
      RegisteredIffLetIn(states, trace, p, c, d);
      SoundAlways(states, trace, p);
      assert Follows(states, trace, p);
      var s, e := states[p], trace[p];
      if e.client != c {
        HistoryOfOthers(trace, p, c, d);
        StateOfOthers(s, e, c, d);
      } else if e.Connect? {
        HistoryOfConnect(trace, p, c, d);
        StateOfConnect(s, e, d);
      } else if e.Checked? {
        HistoryOfCheck(trace, p, c, d);
        StateOfCheck(s, e.owned, c, d);
      } else {
        HistoryOfDisconnect(trace, p, c, d);
        PartedFollowers(s, c);
      }
    }
  }

  /** A connection without drone or token, or with a token that does not verify, changes nothing at all. */
  lemma RefusedChangesNothing(s: State, e: Event)
    requires e.Connect?
    requires e.verdict.Refused? || e.droneId == "" || e.rawToken == "" || e.rawToken == "Bearer "
    ensures Step(s, e) == s
  {
    BareTokenEmpty(e.rawToken);
  }
}
