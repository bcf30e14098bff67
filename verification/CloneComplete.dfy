/** Sending a decision to the clones of a transaction: each clone number is looked up, and
    the first backend with the clone's address gets the order.
 */
module CloneComplete {
  import opened Options
  import opened BackendFile

  datatype Order = Order(backend: nat, commit: bool, trans: nat)

  /** The first backend at an address. */
  function FirstAt(backends: seq<Host>, host: Host): (r: Option<nat>)
    ensures match r
            case None => host !in backends
            case Some(b) => b < |backends| && backends[b] == host && host !in backends[..b]
  {
    FirstFrom(backends, host, 0)
  }

  function FirstFrom(backends: seq<Host>, host: Host, from: nat): (r: Option<nat>)
    requires from <= |backends| && host !in backends[..from]
    ensures match r
            case None => host !in backends
            case Some(b) => from <= b < |backends| && backends[b] == host && host !in backends[..b]
    decreases |backends| - from
  {
    if from == |backends| then assert backends[..from] == backends; None
    else if backends[from] == host then Some(from)
    else
      assert backends[..from + 1] == backends[..from] + [backends[from]];
      FirstFrom(backends, host, from + 1)
  }

  /** Every clone number can be looked up. */
  predicate Known(ids: seq<int>, hosts: map<int, Host>) {
    forall i | 0 <= i < |ids| :: ids[i] in hosts
  }

  /** The orders for a list of clones, in order; a clone without a backend gets none. */
  function Orders(ids: seq<int>, hosts: map<int, Host>, backends: seq<Host>, commit: bool, trans: nat): seq<Order>
    requires Known(ids, hosts)
  {
    if ids == [] then []
    else
      var n := |ids| - 1;
      var b := FirstAt(backends, hosts[ids[n]]);
      Orders(ids[..n], hosts, backends, commit, trans) + if b.Some? then [Order(b.value, commit, trans)] else []
  }

  predicate AllConnected(ids: seq<int>, hosts: map<int, Host>, backends: seq<Host>)
    requires Known(ids, hosts)
  {
    forall i | 0 <= i < |ids| :: hosts[ids[i]] in backends
  }

  /** `proxy_backend_clone_complete`: it fails exactly if some clone has no backend. */
  method Complete(ids: seq<int>, hosts: map<int, Host>, backends: seq<Host>, commit: bool, trans: nat)
    returns (sent: seq<Order>, error: bool)
    requires Known(ids, hosts)
    ensures sent == Orders(ids, hosts, backends, commit, trans)
    ensures error <==> !AllConnected(ids, hosts, backends)
  {
    sent, error := [], false;
    for i := 0 to |ids|
      invariant sent == Orders(ids[..i], hosts, backends, commit, trans)
      invariant error <==> !AllConnected(ids[..i], hosts, backends)
    {
      assert ids[..i + 1] == ids[..i] + [ids[i]];
      var host := hosts[ids[i]];
      var found, bi := false, 0;
      while bi < |backends| && !found
        invariant bi <= |backends| && (found ==> bi < |backends|)
        invariant if found then FirstAt(backends, host) == Some(bi) else host !in backends[..bi]
        decreases |backends| - bi, !found
      {
        if host.host == backends[bi].host && host.port == backends[bi].port {
          found := true;
        } else {
          bi := bi + 1;
        }
      }
      if found { sent := sent + [Order(bi, commit, trans)]; } else { error := true; }
    }
    assert ids[..|ids|] == ids;
  }

  /** What one clone gets: an order at the first backend with its address, or nothing. */
  lemma OrdersOne(id: int, hosts: map<int, Host>, backends: seq<Host>, commit: bool, trans: nat)
    requires id in hosts
    ensures var os := Orders([id], hosts, backends, commit, trans);
            if hosts[id] !in backends then os == []
            else
              && |os| == 1 && os[0].commit == commit && os[0].trans == trans && os[0].backend < |backends|
              && backends[os[0].backend] == hosts[id] && hosts[id] !in backends[..os[0].backend]
  {
    assert [id][..0] == [];
  }

  /** The orders for two lists of clones, one after the other. */
  lemma {:induction false} OrdersAppend(a: seq<int>, b: seq<int>, hosts: map<int, Host>, backends: seq<Host>,
                                        commit: bool, trans: nat)
    requires Known(a, hosts) && Known(b, hosts)
    ensures Known(a + b, hosts)
    ensures Orders(a + b, hosts, backends, commit, trans)
            == Orders(a, hosts, backends, commit, trans) + Orders(b, hosts, backends, commit, trans)
  {
    if b == [] {
      assert a + b == a;
    } else {
      var n := |b| - 1;
      assert (a + b)[..|a + b| - 1] == a + b[..n];
      OrdersAppend(a, b[..n], hosts, backends, commit, trans);
    }
  }

  predicate Distinct<T(==)>(s: seq<T>) {
    forall i, j | 0 <= i < j < |s| :: s[i] != s[j]
  }

  /** Clones with addresses of their own. */
  predicate OwnAddresses(ids: seq<int>, hosts: map<int, Host>)
    requires Known(ids, hosts)
  {
    forall i, j | 0 <= i < j < |ids| :: hosts[ids[i]] != hosts[ids[j]]
  }

  /** When every clone has a backend, each gets the decision exactly once and nobody else
      gets anything. */
  lemma {:induction false} OrdersReachClones(ids: seq<int>, hosts: map<int, Host>, backends: seq<Host>,
                                             commit: bool, trans: nat)
    requires Known(ids, hosts)
    requires AllConnected(ids, hosts, backends) && OwnAddresses(ids, hosts)
    ensures var os := Orders(ids, hosts, backends, commit, trans);
            && |os| == |ids| && Distinct(os)
            && forall i | 0 <= i < |ids| ::
                 && os[i].backend < |backends| && backends[os[i].backend] == hosts[ids[i]]
                 && os[i].commit == commit && os[i].trans == trans
  {
    if ids != [] {
      var n := |ids| - 1;
      OrdersReachClones(ids[..n], hosts, backends, commit, trans);
    }
  }
}
