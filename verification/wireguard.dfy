/**
 * The WireGuard interface of the VPN server. The kernel table follows cryptokey
 * routing: an address has at most one owning key, and setting a peer's allowed
 * addresses replaces its list and takes the address away from any other peer.
 */
module WireGuard {
  import opened Wrappers

  predicate IsBase64Char(c: char) {
    'A' <= c <= 'Z' || 'a' <= c <= 'z' || '0' <= c <= '9' || c == '+' || c == '/'
  }

  /** Forty-three base64 characters and one padding sign. */
  predicate IsRealKey(key: string) {
    |key| == 44 && key[43] == '=' && forall i :: 0 <= i < 43 ==> IsBase64Char(key[i])
  }

  /** Letters, digits, plus signs and slashes. */
  predicate IsKeyBody(body: string) {
    |body| == 43 && forall c :: c in body ==>
      ('A' <= c <= 'Z' || 'a' <= c <= 'z' || '0' <= c <= '9' || c == '+' || c == '/')
  }

  /** A real key is 43 such characters and one equals sign; no placeholder is one. */
  lemma RealKeyText(key: string)
    ensures IsRealKey(key) <==> exists body :: IsKeyBody(body) && key == body + "="
    ensures forall name :: name in {"", "MANUAL_TELEMETRY", "MANUAL_VPN", "MANUAL_PUBLIC_KEY"} ==> !IsRealKey(name)
  {
    if IsRealKey(key) {
      var body := key[..43];
      forall c | c in body
        ensures IsBase64Char(c)
      {
        var i :| 0 <= i < 43 && body[i] == c;
        assert key[i] == c;
      }
      assert IsKeyBody(body) && key == body + "=";
    }
    if body :| IsKeyBody(body) && key == body + "=" {
      forall i | 0 <= i < 43
        ensures IsBase64Char(key[i])
      {
        assert key[i] == body[i] && body[i] in body;
      }
    }
  }

  /** Keys for which `removePeer` issues a command at all. */
  predicate IsRemovable(key: string) {
    key != "" && key != "MANUAL_TELEMETRY" && key != "MANUAL_VPN" && |key| >= 40
  }

  datatype Kernel = Kernel(peers: set<string>, owner: map<string, string>) {
    ghost predicate Valid() {
      && (forall k :: k in peers ==> IsRealKey(k))
      && (forall a :: a in owner ==> owner[a] in peers)
    }

    function Owned(key: string): set<string> {
      set a | a in owner && owner[a] == key
    }

    /** `wg set <if> peer <key> allowed-ips <ip>/32` */
    function Allow(key: string, ip: string): Kernel {
      Kernel(peers + {key}, (map a | a in owner && owner[a] != key :: owner[a])[ip := key])
    }

    /** `wg set <if> peer <key> remove` */
    function Drop(key: string): Kernel {
      Kernel(peers - {key}, map a | a in owner && owner[a] != key :: owner[a])
    }
  }

  /** `addPeer`: the tool rejects a malformed key, and any command may fail. */
  function Added(k: Kernel, key: string, ip: string, ok: bool): Kernel {
    if ok && IsRealKey(key) then k.Allow(key, ip) else k
  }

  /** `removePeer`: placeholder keys are skipped and failures are swallowed. */
  function Removed(k: Kernel, key: string, ok: bool): Kernel {
    if IsRemovable(key) && ok then k.Drop(key) else k
  }

  lemma RealKeyIsRemovable(key: string)
    requires IsRealKey(key)
    ensures IsRemovable(key)
  {
  }

  /** One peer line of `wg show <if> dump`, reduced to what the scan reads. */
  datatype Peer = Peer(publicKey: string, addresses: seq<string>)

  /** The dump lists every peer once, with its addresses once each, in any order. */
  ghost predicate IsDump(k: Kernel, dump: seq<Peer>) {
    && (forall i, j :: 0 <= i < j < |dump| ==> dump[i].publicKey != dump[j].publicKey)
    && (forall key :: key in k.peers ==> Lists(dump, key))
    && (forall i :: 0 <= i < |dump| ==> IsPeerLine(k, dump[i]))
  }

  ghost predicate Lists(dump: seq<Peer>, key: string) {
    exists i :: 0 <= i < |dump| && dump[i].publicKey == key
  }

  ghost predicate IsPeerLine(k: Kernel, peer: Peer) {
    && peer.publicKey in k.peers
    && NoDuplicates(peer.addresses)
    && (forall a :: a in peer.addresses <==> a in k.Owned(peer.publicKey))
  }

  /** After a peer is set, it owns exactly that address, and no other peer gains anything. */
  lemma AllowOwnership(k: Kernel, key: string, ip: string)
    requires k.Valid() && IsRealKey(key)
    ensures k.Allow(key, ip).Valid()
    ensures k.Allow(key, ip).Owned(key) == {ip}
    ensures forall other :: other != key ==> k.Allow(key, ip).Owned(other) == k.Owned(other) - {ip}
  {
  }

  /** Removing a freshly added peer restores ownership exactly when its address was free. */
  lemma AllowThenDrop(k: Kernel, key: string, ip: string)
    requires k.Valid() && key !in k.peers
    ensures k.Allow(key, ip).Drop(key) == k <==> ip !in k.owner
  {
    var back := k.Allow(key, ip).Drop(key);
    assert back.peers == k.peers;
    if ip !in k.owner {
      assert forall a :: a in k.owner ==> k.owner[a] != key;
      assert back.owner == k.owner;
    } else {
      assert ip !in back.owner;
    }
  }

  /** Setting a peer to one address changes nothing exactly when that is all it had. */
  lemma AllowIsNoop(k: Kernel, key: string, ip: string)
    requires k.Valid()
    ensures k.Allow(key, ip) == k <==> k.Owned(key) == {ip}
  {
    var back := k.Allow(key, ip);
    assert back.Owned(key) == {ip};
    if k.Owned(key) == {ip} {
      assert ip in k.Owned(key);
      forall a | a in k.owner
        ensures a in back.owner && back.owner[a] == k.owner[a]
      {
        assert k.owner[a] == key ==> a in k.Owned(key);
      }
      assert back.owner == k.owner;
      assert back.peers == k.peers;
    }
  }

  /** `a` belongs to `key` in this table. */
  predicate Owns(k: Kernel, a: string, key: string) {
    a in k.owner && k.owner[a] == key
  }

  lemma AllowSame(k: Kernel, l: Kernel, prior: string, ip: string)
    requires k.peers + {prior} == l.peers + {prior}
    requires forall a, key :: a != ip && key != prior ==> (Owns(k, a, key) <==> Owns(l, a, key))
    ensures k.Allow(prior, ip) == l.Allow(prior, ip)
  {
    var m, n := k.Allow(prior, ip).owner, l.Allow(prior, ip).owner;
    forall a | a in m
      ensures a in n && m[a] == n[a]
    {
      assert a != ip ==> Owns(k, a, k.owner[a]);
    }
    forall a | a in n
      ensures a in m
    {
      assert a != ip ==> Owns(l, a, l.owner[a]);
    }
    assert m == n;
  }

  /** Replacing a peer and taking the new one out again leaves nothing but the restored peer's own address to check. */
  lemma RestoreForgets(k: Kernel, prior: string, key: string, ip: string)
    requires k.Valid() && key !in k.peers && prior != key
    ensures k.Drop(prior).Allow(prior, ip) == k.Allow(prior, ip)
    ensures k.Allow(key, ip).Drop(key).Allow(prior, ip) == k.Allow(prior, ip)
    ensures k.Drop(prior).Allow(key, ip).Drop(key).Allow(prior, ip) == k.Allow(prior, ip)
  {
    assert forall a :: a in k.owner ==> k.owner[a] != key;
    AllowSame(k.Drop(prior), k, prior, ip);
    AllowSame(k.Allow(key, ip).Drop(key), k, prior, ip);
    AllowSame(k.Drop(prior).Allow(key, ip).Drop(key), k, prior, ip);
  }

  class WireguardService {
    var kernel: Kernel

    constructor (initial: Kernel)
      ensures kernel == initial
    {
      kernel := initial;
    }

    /** Adds a peer; `done` is false where the source throws. */
    method AddPeer(publicKey: string, assignedIp: string, ok: bool) returns (done: bool)
      modifies this
      ensures done == (ok && IsRealKey(publicKey))
      ensures kernel == Added(old(kernel), publicKey, assignedIp, ok)
    {
      done := ok && IsRealKey(publicKey);
      if done {
        kernel := kernel.Allow(publicKey, assignedIp);
      }
    }

    method RemovePeer(publicKey: string, ok: bool)
      modifies this
      ensures kernel == Removed(old(kernel), publicKey, ok)
    {
      if publicKey == "" || publicKey == "MANUAL_TELEMETRY" || publicKey == "MANUAL_VPN" || |publicKey| < 40 {
        return;
      }
      if ok {
        kernel := kernel.Drop(publicKey);
      }
    }

    /** Reads the peer table line by line; a failed command yields no peers. */
    method GetLivePeerStats(ok: bool) returns (stats: seq<Peer>)
      requires kernel.Valid()
      ensures if ok then IsDump(kernel, stats) else stats == []
    {
      stats := [];
      if !ok {
        return;
      }
      var unread := kernel.peers;
      while unread != {}
        invariant unread <= kernel.peers
        invariant forall i :: 0 <= i < |stats| ==> stats[i].publicKey !in unread && IsPeerLine(kernel, stats[i])
        invariant forall i, j :: 0 <= i < j < |stats| ==> stats[i].publicKey != stats[j].publicKey
        invariant forall key :: key in kernel.peers ==> key in unread || Lists(stats, key)
        decreases unread
      {
        var key :| key in unread;
        var addresses := Listed(kernel.Owned(key));
        ghost var before := stats;
        stats := stats + [Peer(key, addresses)];
        unread := unread - {key};
        assert stats[|before|].publicKey == key;
        forall k | k in kernel.peers && k !in unread
          ensures Lists(stats, k)
        {
          if k != key {
            assert Lists(before, k);
            var i :| 0 <= i < |before| && before[i].publicKey == k;
            assert stats[i].publicKey == k;
          }
        }
      }
    }
  }

  /** The elements of a set, once each, in some order. */
  method Listed(s: set<string>) returns (listed: seq<string>)
    ensures NoDuplicates(listed)
    ensures forall a :: a in listed <==> a in s
  {
    listed := [];
    var rest := s;
    while rest != {}
      invariant rest <= s
      invariant NoDuplicates(listed)
      invariant forall a :: a in listed <==> a in s && a !in rest
      decreases rest
    {
      var a :| a in rest;
      assert a !in listed;
      listed := listed + [a];
      rest := rest - {a};
    }
  }
}
