/**
  The in-memory store's indexes (internal/repository/memory.go): tenants by API key, apps by
  site key and by secret key. An index maps a key to an ID, and is right when looking a key
  up gives what a scan of all entities would.
 */
module Store {
  import opened Prelude

  // ---- One index over one kind of entity -----------------------------------------------

  /** Every stored entity's key by its ID, and the index from keys to IDs. */
  datatype Indexed = Indexed(keys: map<string, string>, index: map<string, string>)

  datatype Op = Put(id: string, key: string) | Remove(id: string)

  const EMPTY := Indexed(map[], map[])

  function PutIn(s: Indexed, id: string, key: string): Indexed {
    Indexed(s.keys[id := key], s.index[key := id])
  }

  function RemoveFrom(s: Indexed, id: string): Indexed {
    if id in s.keys then Indexed(s.keys - {id}, s.index - {s.keys[id]}) else s
  }

  /** The IDs a scan finds under a key. */
  function Scan(s: Indexed, key: string): set<string> {
    set id | id in s.keys && s.keys[id] == key
  }

  ghost predicate LookupIsScan(s: Indexed, key: string) {
    Scan(s, key) == if key in s.index then {s.index[key]} else {}
  }

  ghost predicate Exact(s: Indexed) { forall key :: LookupIsScan(s, key) }

  /** No key leads to an ID that is gone. */
  ghost predicate NoDangling(s: Indexed) { forall key :: key in s.index ==> s.index[key] in s.keys }

  /** Neither the ID nor the key is in use, unless by each other. */
  predicate Free(s: Indexed, id: string, key: string) {
    (id in s.keys ==> s.keys[id] == key) && (key in s.index ==> s.index[key] == id)
  }

  lemma ExactEntry(s: Indexed, id: string)
    requires Exact(s) && id in s.keys
    ensures s.keys[id] in s.index && s.index[s.keys[id]] == id
  {
    assert LookupIsScan(s, s.keys[id]);
    assert id in Scan(s, s.keys[id]);
  }

  lemma ExactKey(s: Indexed, key: string)
    requires Exact(s) && key in s.index
    ensures s.index[key] in s.keys && s.keys[s.index[key]] == key
  {
    assert LookupIsScan(s, key);
    assert s.index[key] in Scan(s, key);
  }

  lemma ExactNeverDangles(s: Indexed)
    requires Exact(s)
    ensures NoDangling(s)
  {
    forall key | key in s.index ensures s.index[key] in s.keys {
      ExactKey(s, key);
    }
  }

  lemma PutScan(s: Indexed, id: string, key: string, k: string)
    requires LookupIsScan(s, k) && Exact(s) && Free(s, id, key)
    ensures LookupIsScan(PutIn(s, id, key), k)
  {
    var s' := PutIn(s, id, key);
    if k == key {
      assert Scan(s', key) == Scan(s, key) + {id};
    } else {
      assert id !in Scan(s, k);
      if k in s.index { assert s.index[k] in Scan(s, k); }
      assert Scan(s', k) == Scan(s, k);
    }
  }

  /** Storing an entity keeps the index right exactly when its ID and key are free. */
  lemma PutExact(s: Indexed, id: string, key: string)
    requires Exact(s)
    ensures Exact(PutIn(s, id, key)) <==> Free(s, id, key)
  {
    var s' := PutIn(s, id, key);
    if Free(s, id, key) {
      forall k ensures LookupIsScan(s', k) {
        assert LookupIsScan(s, k);
        PutScan(s, id, key, k);
      }
    } else if id in s.keys && s.keys[id] != key {
      var stale := s.keys[id];
      ExactEntry(s, id);
      assert s'.index[stale] == id && id !in Scan(s', stale);
      assert !LookupIsScan(s', stale);
    } else {
      ExactKey(s, key);
      var shadowed := s.index[key];
      assert shadowed in Scan(s', key) && s'.index[key] == id != shadowed;
      assert !LookupIsScan(s', key);
    }
  }

  /** Deleting always keeps it right. */
  lemma RemoveExact(s: Indexed, id: string)
    requires Exact(s)
    ensures Exact(RemoveFrom(s, id))
  {
    var s' := RemoveFrom(s, id);
    if id in s.keys {
      ExactEntry(s, id);
      forall k ensures LookupIsScan(s', k) {
        assert LookupIsScan(s, k);
        assert Scan(s', k) == Scan(s, k) - {id};
        if k != s.keys[id] { assert id !in Scan(s, k); }
      }
    }
  }

  // ---- Runs ------------------------------------------------------------------------------

  function Run(ops: seq<Op>): Indexed {
    if ops == [] then EMPTY
    else
      var before := Run(ops[..|ops| - 1]);
      match ops[|ops| - 1]
      case Put(id, key) => PutIn(before, id, key)
      case Remove(id) => RemoveFrom(before, id)
  }

  lemma RunGrows(ops: seq<Op>, id: string, key: string)
    ensures Run(ops + [Put(id, key)]) == PutIn(Run(ops), id, key)
    ensures Run(ops + [Remove(id)]) == RemoveFrom(Run(ops), id)
  {
    assert (ops + [Put(id, key)])[..|ops|] == ops && (ops + [Remove(id)])[..|ops|] == ops;
  }

  predicate FreeAt(ops: seq<Op>, i: nat)
    requires i < |ops|
  {
    ops[i].Put? ==> Free(Run(ops[..i]), ops[i].id, ops[i].key)
  }

  ghost predicate RightUpTo(ops: seq<Op>, i: nat)
    requires i <= |ops|
  {
    Exact(Run(ops[..i]))
  }

  lemma RunStep(ops: seq<Op>, i: nat)
    requires i < |ops| && RightUpTo(ops, i)
    ensures RightUpTo(ops, i + 1) <==> FreeAt(ops, i)
  {
    assert ops[..i + 1][..i] == ops[..i];
    match ops[i]
    case Put(id, key) => PutExact(Run(ops[..i]), id, key);
    case Remove(id) => RemoveExact(Run(ops[..i]), id);
  }

  lemma EmptyExact()
    ensures Exact(EMPTY)
  {
    forall key ensures LookupIsScan(EMPTY, key) {}
  }

  lemma {:induction false} FreeRunIsRight(ops: seq<Op>, i: nat)
    requires i <= |ops| && forall j :: 0 <= j < |ops| ==> FreeAt(ops, j)
    ensures RightUpTo(ops, i)
  {
    if i == 0 {
      EmptyExact();
    } else {
      FreeRunIsRight(ops, i - 1);
      assert FreeAt(ops, i - 1);
      RunStep(ops, i - 1);
    }
  }

  /** Throughout a run every lookup equals the scan if and only if every create used a free ID and key. */
  lemma LookupsRightExactly(ops: seq<Op>)
    ensures (forall i :: 0 <= i <= |ops| ==> RightUpTo(ops, i)) <==> (forall i :: 0 <= i < |ops| ==> FreeAt(ops, i))
  {
    if forall i :: 0 <= i < |ops| ==> FreeAt(ops, i) {
      forall i | 0 <= i <= |ops| ensures RightUpTo(ops, i) { FreeRunIsRight(ops, i); }
    }
    if forall i :: 0 <= i <= |ops| ==> RightUpTo(ops, i) {
      forall i | 0 <= i < |ops| ensures FreeAt(ops, i) {
        assert RightUpTo(ops, i) && RightUpTo(ops, i + 1);
        RunStep(ops, i);
      }
    }
  }

  // ---- Dangling keys -------------------------------------------------------------------------

  lemma PutNeverDangles(s: Indexed, id: string, key: string)
    requires NoDangling(s)
    ensures NoDangling(PutIn(s, id, key))
  {
    forall k | k in PutIn(s, id, key).index ensures PutIn(s, id, key).index[k] in PutIn(s, id, key).keys {
      if k != key { assert k in s.index; }
    }
  }

  /** A delete leaves a dangling key exactly when some key other than the entity's own still leads to it. */
  lemma RemoveDangles(s: Indexed, id: string)
    requires NoDangling(s) && id in s.keys
    ensures NoDangling(RemoveFrom(s, id)) <==> forall key :: key in s.index && s.index[key] == id ==> key == s.keys[id]
  {
    var s' := RemoveFrom(s, id);
    if key :| key in s.index && s.index[key] == id && key != s.keys[id] {
      assert key in s'.index && s'.index[key] !in s'.keys;
    } else {
      forall key | key in s'.index ensures s'.index[key] in s'.keys {
        assert key in s.index;
      }
    }
  }

  /** Storing an entity again under a new key, then deleting it, leaves its old key dangling. */
  lemma RekeyThenRemoveDangles(s: Indexed, id: string, key: string, key': string)
    requires key != key'
    ensures !NoDangling(RemoveFrom(PutIn(PutIn(s, id, key), id, key'), id))
  {
    var s' := RemoveFrom(PutIn(PutIn(s, id, key), id, key'), id);
    assert key in s'.index && s'.index[key] !in s'.keys;
  }

  /** The operation is no delete that leaves a key behind. */
  ghost predicate CleanAt(ops: seq<Op>, i: nat)
    requires i < |ops|
  {
    var s := Run(ops[..i]);
    ops[i].Remove? && ops[i].id in s.keys ==>
      forall key :: key in s.index && s.index[key] == ops[i].id ==> key == s.keys[ops[i].id]
  }

  ghost predicate NoneDanglingUpTo(ops: seq<Op>, i: nat)
    requires i <= |ops|
  {
    NoDangling(Run(ops[..i]))
  }

  lemma DanglingStep(ops: seq<Op>, i: nat)
    requires i < |ops| && NoneDanglingUpTo(ops, i)
    ensures NoneDanglingUpTo(ops, i + 1) <==> CleanAt(ops, i)
  {
    assert ops[..i + 1][..i] == ops[..i];
    match ops[i]
    case Put(id, key) => PutNeverDangles(Run(ops[..i]), id, key);
    case Remove(id) => if id in Run(ops[..i]).keys { RemoveDangles(Run(ops[..i]), id); }
  }

  lemma {:induction false} CleanRunNeverDangles(ops: seq<Op>, i: nat)
    requires i <= |ops| && forall j :: 0 <= j < |ops| ==> CleanAt(ops, j)
    ensures NoneDanglingUpTo(ops, i)
  {
    if i > 0 {
      CleanRunNeverDangles(ops, i - 1);
      assert CleanAt(ops, i - 1);
      DanglingStep(ops, i - 1);
    }
  }

  /** Throughout a run no lookup finds a nil entity if and only if no delete left a key behind. */
  lemma NeverNilExactly(ops: seq<Op>)
    ensures (forall i :: 0 <= i <= |ops| ==> NoneDanglingUpTo(ops, i))
       <==> (forall i :: 0 <= i < |ops| ==> CleanAt(ops, i))
  {
    if forall i :: 0 <= i < |ops| ==> CleanAt(ops, i) {
      forall i | 0 <= i <= |ops| ensures NoneDanglingUpTo(ops, i) { CleanRunNeverDangles(ops, i); }
    }
    if forall i :: 0 <= i <= |ops| ==> NoneDanglingUpTo(ops, i) {
      forall i | 0 <= i < |ops| ensures CleanAt(ops, i) {
        assert NoneDanglingUpTo(ops, i) && NoneDanglingUpTo(ops, i + 1);
        DanglingStep(ops, i);
      }
    }
  }

  /** Creates with free IDs and keys are enough for that. */
  lemma FreeRunNeverDangles(ops: seq<Op>, i: nat)
    requires i <= |ops| && forall j :: 0 <= j < |ops| ==> FreeAt(ops, j)
    ensures NoneDanglingUpTo(ops, i)
  {
    FreeRunIsRight(ops, i);
    ExactNeverDangles(Run(ops[..i]));
  }

  // ---- The store ---------------------------------------------------------------------------------

  datatype Tenant = Tenant(id: string, name: string, apiKey: string)

  datatype App = App(id: string, tenantID: string, name: string, siteKey: string, secretKey: string,
                     allowedDomains: seq<string>)

  /** What an app lookup returns: an error, or a pointer that may be nil. */
  datatype Lookup = NotFound | Found(app: Option<App>)

  const SEED_TENANT := Tenant("tenant-001", "Demo Corp", "ak_demo_key_123456")
  const SEED_APP := App("app-001", "tenant-001", "Demo Website", "sk_demo_site_key_abc", "sec_demo_secret_key_xyz",
                        ["localhost", "demo.engagelab.cc"])

  function ApiKeys(tenants: map<string, Tenant>): map<string, string> { map id | id in tenants :: tenants[id].apiKey }
  function SiteKeys(apps: map<string, App>): map<string, string> { map id | id in apps :: apps[id].siteKey }
  function SecretKeys(apps: map<string, App>): map<string, string> { map id | id in apps :: apps[id].secretKey }

  /** A lookup through the index returns the one app that holds the key, and an error if none does. */
  ghost predicate IsScanFor(r: Lookup, apps: map<string, App>, keys: map<string, string>, key: string) {
    match r
    case NotFound => forall id :: id in keys ==> keys[id] != key
    case Found(None) => false
    case Found(Some(a)) =>
      a.id in apps && apps[a.id] == a && forall id :: id in keys ==> (keys[id] == key <==> id == a.id)
  }

  ghost predicate IsTenantFor(r: Option<Tenant>, tenants: map<string, Tenant>, keys: map<string, string>, key: string) {
    match r
    case None => forall id :: id in keys ==> keys[id] != key
    case Some(t) =>
      t.id in tenants && tenants[t.id] == t && forall id :: id in keys ==> (keys[id] == key <==> id == t.id)
  }

  class MemoryStore {
    var tenants: map<string, Tenant>
    var apps: map<string, App>
    var apiKeyIndex: map<string, string>
    var siteKeyIndex: map<string, string>
    var secretKeyIndex: map<string, string>

    ghost function Tenants(): Indexed reads this { Indexed(ApiKeys(tenants), apiKeyIndex) }
    ghost function Sites(): Indexed reads this { Indexed(SiteKeys(apps), siteKeyIndex) }
    ghost function Secrets(): Indexed reads this { Indexed(SecretKeys(apps), secretKeyIndex) }

    ghost predicate Valid()
      reads this
    {
      && Exact(Tenants()) && Exact(Sites()) && Exact(Secrets())
      && (forall id :: id in apps ==> apps[id].id == id) && (forall id :: id in tenants ==> tenants[id].id == id)
    }

    /** The store starts with one tenant and one app. */
    constructor ()
      ensures Valid()
      ensures tenants == map[SEED_TENANT.id := SEED_TENANT] && apps == map[SEED_APP.id := SEED_APP]
      ensures apiKeyIndex == map["ak_demo_key_123456" := "tenant-001"]
      ensures siteKeyIndex == map["sk_demo_site_key_abc" := "app-001"]
      ensures secretKeyIndex == map["sec_demo_secret_key_xyz" := "app-001"]
      ensures Tenants() == PutIn(EMPTY, SEED_TENANT.id, SEED_TENANT.apiKey)
      ensures Sites() == PutIn(EMPTY, SEED_APP.id, SEED_APP.siteKey)
      ensures Secrets() == PutIn(EMPTY, SEED_APP.id, SEED_APP.secretKey)
    {
      tenants, apps := map[SEED_TENANT.id := SEED_TENANT], map[SEED_APP.id := SEED_APP];
      apiKeyIndex := map[SEED_TENANT.apiKey := SEED_TENANT.id];
      siteKeyIndex := map[SEED_APP.siteKey := SEED_APP.id];
      secretKeyIndex := map[SEED_APP.secretKey := SEED_APP.id];
      new;
      PutApiKey(map[], SEED_TENANT);
      PutKeys(map[], SEED_APP);
      OnePut(SEED_TENANT.id, SEED_TENANT.apiKey);
      OnePut(SEED_APP.id, SEED_APP.siteKey);
      OnePut(SEED_APP.id, SEED_APP.secretKey);
    }

    method CreateTenant(t: Tenant)
      modifies this
      ensures Tenants() == PutIn(old(Tenants()), t.id, t.apiKey) && tenants == old(tenants)[t.id := t]
      ensures apps == old(apps) && Sites() == old(Sites()) && Secrets() == old(Secrets())
      ensures old(Valid()) ==> (Valid() <==> Free(old(Tenants()), t.id, t.apiKey))
    {
      ghost var before := Tenants();
      tenants := tenants[t.id := t];
      apiKeyIndex := apiKeyIndex[t.apiKey := t.id];
      PutApiKey(old(tenants), t);
      if old(Valid()) { PutExact(before, t.id, t.apiKey); }
    }

    method CreateApp(app: App)
      modifies this
      ensures Sites() == PutIn(old(Sites()), app.id, app.siteKey)
      ensures Secrets() == PutIn(old(Secrets()), app.id, app.secretKey)
      ensures apps == old(apps)[app.id := app] && tenants == old(tenants) && Tenants() == old(Tenants())
      ensures old(Valid()) ==>
                (Valid() <==> Free(old(Sites()), app.id, app.siteKey) && Free(old(Secrets()), app.id, app.secretKey))
    {
      ghost var sites, secrets := Sites(), Secrets();
      apps := apps[app.id := app];
      siteKeyIndex := siteKeyIndex[app.siteKey := app.id];
      secretKeyIndex := secretKeyIndex[app.secretKey := app.id];
      PutKeys(old(apps), app);
      if old(Valid()) {
        PutExact(sites, app.id, app.siteKey);
        PutExact(secrets, app.id, app.secretKey);
      }
    }

    method DeleteApp(id: string) returns (ok: bool)
      modifies this
      ensures ok == (id in old(apps)) && apps == old(apps) - {id}
      ensures Sites() == RemoveFrom(old(Sites()), id) && Secrets() == RemoveFrom(old(Secrets()), id)
      ensures tenants == old(tenants) && Tenants() == old(Tenants())
      ensures old(Valid()) ==> Valid()
    {
      ghost var sites, secrets := Sites(), Secrets();
      if id !in apps {
        return false;
      }
      var a := apps[id];
      siteKeyIndex := siteKeyIndex - {a.siteKey};
      secretKeyIndex := secretKeyIndex - {a.secretKey};
      apps := apps - {id};
      assert Sites().keys == sites.keys - {id} && Secrets().keys == secrets.keys - {id};
      if old(Valid()) {
        RemoveExact(sites, id);
        RemoveExact(secrets, id);
      }
      ok := true;
    }

    method GetTenantByAPIKey(apiKey: string) returns (t: Option<Tenant>)
      ensures Valid() ==> IsTenantFor(t, tenants, ApiKeys(tenants), apiKey)
    {
      t := None;
      if apiKey in apiKeyIndex {
        var tid := apiKeyIndex[apiKey];
        if tid in tenants {
          t := Some(tenants[tid]);
        }
      }
      if Valid() { LookupExact(Tenants(), apiKey); }
    }

    method GetAppBySiteKey(siteKey: string) returns (r: Lookup)
      ensures Valid() ==> IsScanFor(r, apps, SiteKeys(apps), siteKey)
      ensures NoDangling(Sites()) ==> r != Found(None)
    {
      if siteKey !in siteKeyIndex {
        r := NotFound;
      } else {
        var aid := siteKeyIndex[siteKey];
        r := Found(if aid in apps then Some(apps[aid]) else None);
      }
      if Valid() { LookupExact(Sites(), siteKey); }
    }

    method GetAppBySecretKey(secretKey: string) returns (r: Lookup)
      ensures Valid() ==> IsScanFor(r, apps, SecretKeys(apps), secretKey)
      ensures NoDangling(Secrets()) ==> r != Found(None)
    {
      if secretKey !in secretKeyIndex {
        r := NotFound;
      } else {
        var aid := secretKeyIndex[secretKey];
        r := Found(if aid in apps then Some(apps[aid]) else None);
      }
      if Valid() { LookupExact(Secrets(), secretKey); }
    }
  }

  lemma PutKeys(apps: map<string, App>, app: App)
    ensures SiteKeys(apps[app.id := app]) == SiteKeys(apps)[app.id := app.siteKey]
    ensures SecretKeys(apps[app.id := app]) == SecretKeys(apps)[app.id := app.secretKey]
  {}

  lemma PutApiKey(tenants: map<string, Tenant>, t: Tenant)
    ensures ApiKeys(tenants[t.id := t]) == ApiKeys(tenants)[t.id := t.apiKey]
  {}

  lemma OnePut(id: string, key: string)
    ensures PutIn(EMPTY, id, key) == Indexed(map[id := key], map[key := id]) && Exact(PutIn(EMPTY, id, key))
  {
    EmptyExact();
    PutExact(EMPTY, id, key);
  }

  lemma LookupExact(s: Indexed, key: string)
    requires Exact(s)
    ensures key in s.index ==> s.index[key] in s.keys
    ensures forall id :: id in s.keys ==> (s.keys[id] == key <==> key in s.index && s.index[key] == id)
  {
    assert LookupIsScan(s, key);
    if key in s.index { ExactKey(s, key); }
    forall id | id in s.keys ensures s.keys[id] == key <==> key in s.index && s.index[key] == id {
      assert id in Scan(s, key) <==> s.keys[id] == key;
    }
  }
}
