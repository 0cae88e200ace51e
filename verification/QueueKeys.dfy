/** Redis key names, and when two deployments can touch the same key. */
module QueueKeys {
  import opened Wrappers

  /** What a key of one namespace holds. */
  datatype Slot =
    | QueueSlot | NotifySlot | LeasesSlot
    | AttemptSlot(id: string) | JobSlot(id: string) | StateSlot(id: string) | ResultSlot(id: string)

  datatype Keys = Keys(
    namespace: string,
    queue: string,
    notify: string,
    leases: string,
    attemptPrefix: string,
    jobPrefix: string,
    statePrefix: string,
    resultPrefix: string)
  {
    function Job(id: string): string { jobPrefix + id }
    function State(id: string): string { statePrefix + id }
    function Result(id: string): string { resultPrefix + id }
    function Attempt(id: string): string { attemptPrefix + id }
  }

  function Namespace(prefix: string, network: string, seed: string): string {
    prefix + "-" + network + "-" + seed
  }

  /** `QueueKeys::new`, once prefix, network and seed have made the namespace. */
  function KeysIn(ns: string): Keys {
    Keys(ns, ns + ":queue", ns + ":notify", ns + ":leases", ns + ":attempt:", ns + ":job:", ns + ":state:", ns + ":result:")
  }

  function KeyOf(ns: string, slot: Slot): string {
    var keys := KeysIn(ns);
    match slot
    case QueueSlot => keys.queue
    case NotifySlot => keys.notify
    case LeasesSlot => keys.leases
    case AttemptSlot(id) => keys.Attempt(id)
    case JobSlot(id) => keys.Job(id)
    case StateSlot(id) => keys.State(id)
    case ResultSlot(id) => keys.Result(id)
  }

  /** Reads a slot back from its key: the letter after the colon tells the kind, the id is the rest. */
  function SlotOf(ns: string, key: string): Option<Slot> {
    var n := |ns|;
    if |key| < n + 2 then None
    else if key[n + 1] == 'q' then Some(QueueSlot)
    else if key[n + 1] == 'n' then Some(NotifySlot)
    else if key[n + 1] == 'l' then Some(LeasesSlot)
    else if key[n + 1] == 'a' && |key| >= n + 9 then Some(AttemptSlot(key[n + 9..]))
    else if key[n + 1] == 'j' && |key| >= n + 5 then Some(JobSlot(key[n + 5..]))
    else if key[n + 1] == 's' && |key| >= n + 7 then Some(StateSlot(key[n + 7..]))
    else if key[n + 1] == 'r' && |key| >= n + 8 then Some(ResultSlot(key[n + 8..]))
    else None
  }

  /** Within a namespace the key determines the kind and the job id, so distinct slots never collide. */
  lemma KeyDeterminesSlot(ns: string, slot: Slot)
    ensures SlotOf(ns, KeyOf(ns, slot)) == Some(slot)
    ensures slot.QueueSlot? ==> KeyOf(ns, slot) == ns + ":queue"
    ensures slot.NotifySlot? ==> KeyOf(ns, slot) == ns + ":notify"
    ensures slot.LeasesSlot? ==> KeyOf(ns, slot) == ns + ":leases"
    ensures slot.AttemptSlot? ==> KeyOf(ns, slot) == ns + ":attempt:" + slot.id
    ensures slot.JobSlot? ==> KeyOf(ns, slot) == ns + ":job:" + slot.id
    ensures slot.StateSlot? ==> KeyOf(ns, slot) == ns + ":state:" + slot.id
    ensures slot.ResultSlot? ==> KeyOf(ns, slot) == ns + ":result:" + slot.id
  {
    var key := KeyOf(ns, slot);
    match slot
    case QueueSlot => assert key[|ns| + 1] == ":queue"[1];
    case NotifySlot => assert key[|ns| + 1] == ":notify"[1];
    case LeasesSlot => assert key[|ns| + 1] == ":leases"[1];
    case AttemptSlot(id) => assert key[|ns| + 1] == ":attempt:"[1]; assert key[|ns| + 9..] == id;
    case JobSlot(id) => assert key[|ns| + 1] == ":job:"[1]; assert key[|ns| + 5..] == id;
    case StateSlot(id) => assert key[|ns| + 1] == ":state:"[1]; assert key[|ns| + 7..] == id;
    case ResultSlot(id) => assert key[|ns| + 1] == ":result:"[1]; assert key[|ns| + 8..] == id;
  }

  ghost predicate Owned(ns: string, key: string) {
    exists slot :: key == KeyOf(ns, slot)
  }

  // ---------------------------------------------------------------- between namespaces

  function KindOf(slot: Slot): string {
    match slot
    case QueueSlot => ":queue"
    case NotifySlot => ":notify"
    case LeasesSlot => ":leases"
    case AttemptSlot(_) => ":attempt"
    case JobSlot(_) => ":job"
    case StateSlot(_) => ":state"
    case ResultSlot(_) => ":result"
  }

  function TailOf(slot: Slot): string {
    if slot.QueueSlot? || slot.NotifySlot? || slot.LeasesSlot? then "" else ":" + slot.id
  }

  lemma KeyShape(ns: string, slot: Slot)
    ensures KeyOf(ns, slot) == ns + KindOf(slot) + TailOf(slot)
  {
    match slot
    case AttemptSlot(id) => ColonApart(ns, ":attempt", id);
    case JobSlot(id) => ColonApart(ns, ":job", id);
    case StateSlot(id) => ColonApart(ns, ":state", id);
    case ResultSlot(id) => ColonApart(ns, ":result", id);
    case _ =>
  }

  lemma ColonApart(ns: string, kind: string, id: string)
    ensures ns + (kind + ":") + id == ns + kind + (":" + id)
  {
  }

  lemma OwnedBegins(ns: string, key: string)
    ensures Owned(ns, key) ==> |ns| < |key| && key[..|ns|] == ns && key[|ns|] == ':'
  {
    if Owned(ns, key) {
      var slot :| key == KeyOf(ns, slot);
      KeyShape(ns, slot);
      assert KindOf(slot)[0] == ':';
    }
  }

  /** Workers on different networks with the same prefix and seed share no key. */
  lemma NetworksAreDisjoint(prefix: string, seed: string, key: string)
    ensures !(Owned(Namespace(prefix, "regtest", seed), key) && Owned(Namespace(prefix, "testnet", seed), key))
  {
    var a, b := Namespace(prefix, "regtest", seed), Namespace(prefix, "testnet", seed);
    var n := |prefix| + 1;
    assert a[n] == "regtest"[0] == 'r';
    assert b[n] == "testnet"[0] == 't';
    OwnedBegins(a, key);
    OwnedBegins(b, key);
    assert Owned(a, key) ==> key[n] == key[..|a|][n] == 'r';
    assert Owned(b, key) ==> key[n] == key[..|b|][n] == 't';
  }

  /** `outer` is `inner` followed by the kind and then nothing, or a colon and more. */
  predicate ExtendsBy(inner: string, outer: string, kind: string) {
    inner + kind <= outer && (outer == inner + kind || outer[|inner| + |kind|] == ':')
  }

  /** `outer` reads as a key of `inner` for some job, cut off before or inside the id. */
  predicate Extends(inner: string, outer: string) {
    ExtendsBy(inner, outer, ":attempt") || ExtendsBy(inner, outer, ":job")
    || ExtendsBy(inner, outer, ":state") || ExtendsBy(inner, outer, ":result")
  }

  lemma SplitAtColon(head: string, outer: string, tail: string)
    requires head <= outer && (outer == head || outer[|head|] == ':')
    requires |tail| > 0 && tail[0] == ':'
    ensures outer + tail == head + (":" + (outer + tail)[|head| + 1..])
  {
  }

  lemma ExtendsByShares(inner: string, outer: string, slot: Slot)
    requires slot.AttemptSlot? || slot.JobSlot? || slot.StateSlot? || slot.ResultSlot?
    requires ExtendsBy(inner, outer, KindOf(slot))
    requires slot.id == KeyOf(outer, QueueSlot)[|inner| + |KindOf(slot)| + 1..]
    ensures Owned(inner, KeyOf(outer, QueueSlot)) && Owned(outer, KeyOf(outer, QueueSlot))
  {
    KeyShape(inner, slot);
    KeyShape(outer, QueueSlot);
    assert outer + ":queue" + "" == outer + ":queue";
    SplitAtColon(inner + KindOf(slot), outer, ":queue");
  }

  lemma ExtendsShares(inner: string, outer: string)
    requires Extends(inner, outer)
    ensures Owned(inner, KeyOf(outer, QueueSlot)) && Owned(outer, KeyOf(outer, QueueSlot))
  {
    var key := KeyOf(outer, QueueSlot);
    KeyShape(outer, QueueSlot);
    if ExtendsBy(inner, outer, ":attempt") { ExtendsByShares(inner, outer, AttemptSlot(key[|inner| + 9..])); }
    else if ExtendsBy(inner, outer, ":job") { ExtendsByShares(inner, outer, JobSlot(key[|inner| + 5..])); }
    else if ExtendsBy(inner, outer, ":state") { ExtendsByShares(inner, outer, StateSlot(key[|inner| + 7..])); }
    else { ExtendsByShares(inner, outer, ResultSlot(key[|inner| + 8..])); }
  }

  lemma KindHasOneColon(slot: Slot, i: nat)
    requires 0 < i < |KindOf(slot)|
    ensures KindOf(slot)[i] != ':'
  {
  }

  lemma SharesExtends(inner: string, outer: string, key: string, x: Slot)
    requires |inner| < |outer| < |key| && key == KeyOf(inner, x)
    requires key[..|outer|] == outer && key[|outer|] == ':'
    ensures Extends(inner, outer)
  {
    KeyShape(inner, x);
    var kind, m, n := KindOf(x), |outer|, |inner| + |KindOf(x)|;
    if m < n {
      assert key[m] == kind[m - |inner|];
      KindHasOneColon(x, m - |inner|);
      assert false;
    } else {
      assert key[n] == TailOf(x)[0] == ':';
      assert outer[..n] == key[..n] == inner + kind;
      assert m > n ==> outer[n] == key[n];
      assert ExtendsBy(inner, outer, kind);
    }
  }

  /** Two namespaces share a key exactly when they are equal or one extends the other. */
  lemma NamespacesShareExactlyWhen(a: string, b: string)
    ensures (exists key :: Owned(a, key) && Owned(b, key)) <==> a == b || Extends(a, b) || Extends(b, a)
  {
    if a == b { assert Owned(a, KeyOf(a, QueueSlot)); }
    if Extends(a, b) { ExtendsShares(a, b); }
    if Extends(b, a) { ExtendsShares(b, a); }
    if key :| Owned(a, key) && Owned(b, key) {
      OwnedBegins(a, key);
      OwnedBegins(b, key);
      var x :| key == KeyOf(a, x);
      var y :| key == KeyOf(b, y);
      if |a| < |b| {
        SharesExtends(a, b, key, x);
      } else if |b| < |a| {
        SharesExtends(b, a, key, y);
      }
    }
  }

  /** Prefix and seed are free text, so two configurations can name one namespace. */
  lemma ConfigurationsCanCoincide(prefix: string, seed: string)
    ensures Namespace(prefix, "regtest", "testnet-" + seed) == Namespace(prefix + "-regtest", "testnet", seed)
                                                             == prefix + "-regtest-testnet-" + seed
  {
  }
}
