/**
 The move of relay and administrator credentials to their fixed names: migrate_credentials and
 read_credentials of tools/tls_admin.py, with the file names of tools/tls_support.py.

 Every file write, configuration replacement and clean-up unlink is one step, recorded in
 `history`; the process may die after any of them and be run again.
 */
module CredentialMigration {
  import opened Common
  import opened CredentialFiles

  datatype Path = Fixed(rel: Rel) | Staged(run: nat, part: Rel) | Other(name: string)

  /** A configuration value: a path when the field names a file, anything else otherwise. */
  datatype Value = File(path: Path) | Plain(text: string)

  type Config = map<string, Value>

  datatype Data = Data(relay: Config, admin: Option<Config>, files: map<Path, Bytes>)

  /** What the relay's check-config and the administrator's Credentials make of a candidate. */
  datatype Checks = Checks(relay: (Config, map<Rel, Bytes>) -> bool, admin: (Config, map<Rel, Bytes>) -> bool)

  predicate IsRelayField(k: string) {
    k in ["server_cert_file", "server_key_file", "client_ca_file", "device_allowlist_file"]
  }

  predicate IsAdminField(k: string) {
    k in ["ca_file", "client_cert_file", "client_key_file"]
  }

  function StripRelay(config: Config): Config {
    map k | k in config && !IsRelayField(k) :: config[k]
  }

  function StripAdmin(config: Config): Config {
    map k | k in config && !IsAdminField(k) :: config[k]
  }

  // ----- What read_credentials resolves -----

  /** The files that count: those of the administrator only if its configuration says anything. */
  function Rels(d: Data): seq<Rel> {
    if d.admin.Some? && d.admin.value != map[] then RELAY_FILES + ADMIN_FILES else RELAY_FILES
  }

  function ConfigOf(d: Data, rel: Rel): Config {
    if rel in RELAY_FILES || d.admin.None? then d.relay else d.admin.value
  }

  /** The path a configuration gives for a file, or the fixed one. */
  function Source(d: Data, rel: Rel): Value {
    var config := ConfigOf(d, rel);
    if Field(rel) in config then config[Field(rel)] else File(Fixed(rel))
  }

  predicate CanRead(d: Data, rel: Rel) {
    Source(d, rel).File? && Source(d, rel).path in d.files
  }

  predicate Readable(d: Data) {
    forall rel :: rel in Rels(d) ==> CanRead(d, rel)
  }

  function Content(d: Data, rel: Rel): Bytes
    requires CanRead(d, rel)
  {
    d.files[Source(d, rel).path]
  }

  function Material(d: Data): map<Rel, Bytes>
    requires Readable(d)
  {
    map rel | rel in Rels(d) :: Content(d, rel)
  }

  function StrippedAdmin(d: Data): Option<Config> {
    if d.admin.Some? then Some(StripAdmin(d.admin.value)) else None
  }

  datatype Credentials = Credentials(relay: Config, admin: Option<Config>, material: map<Rel, Bytes>)

  /** What the configurations and files mean, or nothing if some file cannot be read. */
  function Effective(d: Data): Option<Credentials> {
    if Readable(d) then Some(Credentials(StripRelay(d.relay), StrippedAdmin(d), Material(d))) else None
  }

  // ----- Migration -----

  predicate HasLegacy(d: Data) {
    (exists k :: k in d.relay && IsRelayField(k))
    || (d.admin.Some? && exists k :: k in d.admin.value && IsAdminField(k))
  }

  predicate NoConflict(d: Data)
    requires Readable(d)
  {
    forall rel :: rel in Rels(d) && Fixed(rel) in d.files ==> d.files[Fixed(rel)] == Content(d, rel)
  }

  predicate Accepted(d: Data, checks: Checks)
    requires Readable(d)
  {
    && checks.relay(StripRelay(d.relay), Material(d))
    && (StrippedAdmin(d).Some? && StrippedAdmin(d).value != map[] ==>
          StrippedAdmin(d).value.Keys == {"relay_url"} && checks.admin(StrippedAdmin(d).value, Material(d)))
  }

  /** When an undisturbed run ends without an error. */
  predicate Succeeds(d: Data, checks: Checks) {
    HasLegacy(d) ==> Readable(d) && NoConflict(d) && Accepted(d, checks)
  }

  /** Every file is as it was; what is new is staged, or a copy at its fixed place. */
  predicate Copied(d: Data, files: map<Path, Bytes>)
    requires Readable(d)
  {
    && (forall p :: p in d.files ==> p in files && files[p] == d.files[p])
    && (forall p :: p in files && p !in d.files && !p.Staged? ==>
          p.Fixed? && p.rel in Rels(d) && files[p] == Content(d, p.rel))
  }

  predicate AllFixed(d: Data, files: map<Path, Bytes>) {
    forall rel :: rel in Rels(d) ==> Fixed(rel) in files
  }

  /** The administrator's configuration after its publication; an empty one is not written. */
  function NewAdmin(d: Data): Option<Config> {
    if d.admin.Some? && StripAdmin(d.admin.value) != map[] then Some(StripAdmin(d.admin.value)) else d.admin
  }

  /** What one run, dying at any point or not at all, may make of the data directory. */
  predicate Advances(d: Data, e: Data) {
    || e == d
    || (HasLegacy(d) && Readable(d) && NoConflict(d)
        && Copied(d, e.files)
        && (e.admin == d.admin || (e.admin == NewAdmin(d) && AllFixed(d, e.files)))
        && (e.relay == d.relay || (e.relay == StripRelay(d.relay) && e.admin == NewAdmin(d) && AllFixed(d, e.files))))
  }

  predicate Finishes(d: Data, e: Data) {
    if HasLegacy(d) then
      && Readable(d) && NoConflict(d) && Copied(d, e.files) && AllFixed(d, e.files)
      && e.admin == NewAdmin(d) && e.relay == StripRelay(d.relay)
    else e == d
  }

  /**
   A legacy configuration is migrated exactly if every file can be read, none at a fixed place differs, and
   the checks accept the contents with what is left of the configurations: the relay's without its four
   fields, and the administrator's without its three, which must then be the relay's URL or nothing.
   */
  lemma MigratesExactly(d: Data, checks: Checks, relay: Config, admin: Config)
    requires HasLegacy(d)
    requires forall k :: if k in ["server_cert_file", "server_key_file", "client_ca_file", "device_allowlist_file"] then k !in relay
                         else (k in relay <==> k in d.relay) && (k in relay ==> relay[k] == d.relay[k])
    requires forall k :: if k in ["ca_file", "client_cert_file", "client_key_file"] || d.admin.None? then k !in admin
                         else (k in admin <==> k in d.admin.value) && (k in admin ==> admin[k] == d.admin.value[k])
    ensures Succeeds(d, checks) <==>
            && (forall rel :: rel in Rels(d) ==> CanRead(d, rel))
            && (forall rel :: rel in Rels(d) && Fixed(rel) in d.files ==> d.files[Fixed(rel)] == Content(d, rel))
            && checks.relay(relay, Material(d))
            && (admin == map[] || (admin.Keys == {"relay_url"} && checks.admin(admin, Material(d))))
  {
    assert relay == StripRelay(d.relay);
    assert admin == if d.admin.Some? then StripAdmin(d.admin.value) else map[];
  }

  // ----- Crashes and retries -----

  lemma AdvancesKeepsRels(d: Data, e: Data)
    requires Advances(d, e)
    ensures Rels(e) == Rels(d)
  {
  }

  lemma AdvancesKeepsContent(d: Data, e: Data, rel: Rel)
    requires Advances(d, e) && Readable(d) && rel in Rels(d)
    ensures CanRead(e, rel) && Content(e, rel) == Content(d, rel)
  {
    assert CanRead(d, rel);
    assert rel in RELAY_FILES ==> IsRelayField(Field(rel));
    assert rel in ADMIN_FILES ==> IsAdminField(Field(rel));
  }

  /** At every moment of every run the credentials in force are the ones it started from. */
  lemma AdvancesKeepsEffective(d: Data, e: Data)
    requires Advances(d, e)
    ensures Effective(e) == Effective(d)
  {
    if e != d {
      AdvancesKeepsRels(d, e);
      forall rel | rel in Rels(d) ensures CanRead(e, rel) && Content(e, rel) == Content(d, rel) {
        AdvancesKeepsContent(d, e, rel);
      }
      assert Material(e) == Material(d);
      StripTwice(d);
    }
  }

  lemma StripTwice(d: Data)
    ensures StripRelay(StripRelay(d.relay)) == StripRelay(d.relay)
    ensures d.admin.Some? ==> StripAdmin(StripAdmin(d.admin.value)) == StripAdmin(d.admin.value)
  {
  }

  lemma AdvancesKeepsSucceeds(d: Data, e: Data, checks: Checks)
    requires Advances(d, e) && Succeeds(d, checks)
    ensures Succeeds(e, checks)
  {
    if e != d {
      AdvancesKeepsEffective(d, e);
      AdvancesKeepsRels(d, e);
      forall rel | rel in Rels(d) && Fixed(rel) in e.files ensures e.files[Fixed(rel)] == Content(e, rel) {
        AdvancesKeepsContent(d, e, rel);
      }
    }
  }

  /** Runs one after another, each dying wherever it likes. */
  predicate Retries(states: seq<Data>) {
    states != [] && forall i :: 0 <= i < |states| - 1 ==> Advances(states[i], states[i + 1])
  }

  lemma {:induction false} RetriesKeepCredentials(states: seq<Data>, checks: Checks)
    requires Retries(states)
    ensures var first, last := states[0], states[|states| - 1];
      && Effective(last) == Effective(first)
      && (forall p :: p in first.files ==> p in last.files && last.files[p] == first.files[p])
      && (Succeeds(first, checks) ==> Succeeds(last, checks))
    decreases |states|
  {
    if |states| > 1 {
      AdvancesKeepsEffective(states[0], states[1]);
      if Succeeds(states[0], checks) {
        AdvancesKeepsSucceeds(states[0], states[1], checks);
      }
      RetriesKeepCredentials(states[1..], checks);
    }
  }

  /** The administrator's configuration holds nothing but credential paths. */
  predicate OnlyCredentialPaths(d: Data) {
    d.admin.Some? && d.admin.value != map[] && StripAdmin(d.admin.value) == map[]
  }

  lemma NewAdminHasNoPaths(d: Data)
    requires !OnlyCredentialPaths(d) && NewAdmin(d).Some?
    ensures forall k :: k in NewAdmin(d).value ==> !IsAdminField(k)
  {
  }

  /**
   After any crashes a successful run leaves the same credentials in force, and no path in the
   configurations, exactly unless the administrator's one held nothing but paths: the code takes
   what is then left of it for an absent configuration and never writes it.
   */
  lemma SuccessLeavesNoPaths(states: seq<Data>, e: Data, checks: Checks)
    requires Retries(states) && Finishes(states[|states| - 1], e)
    ensures Effective(e) == Effective(states[0])
    ensures HasLegacy(e) <==> OnlyCredentialPaths(states[0])
  {
    RetriesKeepCredentials(states, checks);
    var d := states[|states| - 1];
    AdvancesKeepsEffective(d, e);
    RetriesKeepOnlyPaths(states);
    if OnlyCredentialPaths(d) {
      var k :| k in d.admin.value;
      assert k !in StripAdmin(d.admin.value);
    } else if NewAdmin(d).Some? {
      NewAdminHasNoPaths(d);
    }
  }

  /** The fixed file has the bytes of the file that the field named, or else of the fixed one. */
  predicate CopiedFrom(d: Data, e: Data, config: Config, field: string, rel: Rel) {
    var source := if field in config then config[field] else File(Fixed(rel));
    source.File? && source.path in d.files && Fixed(rel) in e.files && e.files[Fixed(rel)] == d.files[source.path]
  }

  /**
   After any crashes a successful run has each credential in the fixed file of its own, and the relay's
   configuration is as it was without the four fields.
   */
  lemma EachFileHasItsPlace(states: seq<Data>, e: Data, checks: Checks)
    requires Retries(states) && Finishes(states[|states| - 1], e) && Readable(states[0])
    ensures var d := states[0];
            && CopiedFrom(d, e, d.relay, "server_cert_file", ServerPem)
            && CopiedFrom(d, e, d.relay, "server_key_file", ServerKeyPem)
            && CopiedFrom(d, e, d.relay, "client_ca_file", CaPem)
            && CopiedFrom(d, e, d.relay, "device_allowlist_file", DevicesJson)
            && (d.admin.Some? && d.admin.value != map[] ==>
                  && CopiedFrom(d, e, d.admin.value, "ca_file", AdminCaPem)
                  && CopiedFrom(d, e, d.admin.value, "client_cert_file", AdminClientPem)
                  && CopiedFrom(d, e, d.admin.value, "client_key_file", AdminClientKeyPem))
            && (forall k :: k in e.relay ==> k !in ["server_cert_file", "server_key_file", "client_ca_file", "device_allowlist_file"])
            && (forall k :: k in d.relay && k !in ["server_cert_file", "server_key_file", "client_ca_file", "device_allowlist_file"] ==>
                  k in e.relay && e.relay[k] == d.relay[k])
  {
    hide Effective, Finishes, Advances, CopiedFrom, Rels, Succeeds;
    RetriesKeepCredentials(states, checks);
    var d, last := states[0], states[|states| - 1];
    FinishingAdvances(last, e);
    AdvancesKeepsEffective(last, e);
    forall rel | rel in Rels(d) ensures Placed(d, e, rel) {
      SameContent(d, last, rel);
      PlaceOf(last, e, rel);
    }
    PlacedUnderTheirNames(d, e);
    RelayIsStripped(d, last, e);
  }

  lemma FinishingAdvances(d: Data, e: Data)
    requires Finishes(d, e)
    ensures Advances(d, e)
  {
  }

  predicate Placed(d: Data, e: Data, rel: Rel) {
    CanRead(d, rel) && Fixed(rel) in e.files && e.files[Fixed(rel)] == Content(d, rel)
  }

  lemma PlacedUnderTheirNames(d: Data, e: Data)
    requires forall rel :: rel in Rels(d) ==> Placed(d, e, rel)
    ensures CopiedFrom(d, e, d.relay, "server_cert_file", ServerPem) && CopiedFrom(d, e, d.relay, "server_key_file", ServerKeyPem)
    ensures CopiedFrom(d, e, d.relay, "client_ca_file", CaPem) && CopiedFrom(d, e, d.relay, "device_allowlist_file", DevicesJson)
    ensures d.admin.Some? && d.admin.value != map[] ==>
              && CopiedFrom(d, e, d.admin.value, "ca_file", AdminCaPem)
              && CopiedFrom(d, e, d.admin.value, "client_cert_file", AdminClientPem)
              && CopiedFrom(d, e, d.admin.value, "client_key_file", AdminClientKeyPem)
  {
    RelsAre(d);
    hide Rels;
    assert Placed(d, e, ServerPem) && Placed(d, e, ServerKeyPem) && Placed(d, e, CaPem) && Placed(d, e, DevicesJson);
  }

  /** The relay's files always count, the administrator's with a configuration that says anything. */
  lemma RelsAre(d: Data)
    ensures ServerPem in Rels(d) && ServerKeyPem in Rels(d) && CaPem in Rels(d) && DevicesJson in Rels(d)
    ensures d.admin.Some? && d.admin.value != map[] ==>
              AdminCaPem in Rels(d) && AdminClientPem in Rels(d) && AdminClientKeyPem in Rels(d)
  {
    var rels := Rels(d);
    assert rels[0] == ServerPem && rels[1] == ServerKeyPem && rels[2] == CaPem && rels[3] == DevicesJson;
    if d.admin.Some? && d.admin.value != map[] {
      assert rels[4] == AdminCaPem && rels[5] == AdminClientPem && rels[6] == AdminClientKeyPem;
    }
  }

  lemma RelayIsStripped(d: Data, last: Data, e: Data)
    requires Finishes(last, e) && Readable(d) && Effective(e) == Effective(d)
    ensures forall k :: k in e.relay ==> !IsRelayField(k)
    ensures forall k :: k in d.relay && !IsRelayField(k) ==> k in e.relay && e.relay[k] == d.relay[k]
  {
    assert StripRelay(e.relay) == StripRelay(d.relay);
    forall k | k in d.relay && !IsRelayField(k) ensures k in e.relay && e.relay[k] == d.relay[k] {
      assert k in StripRelay(d.relay) && k in StripRelay(e.relay);
    }
  }

  lemma SameContent(d: Data, e: Data, rel: Rel)
    requires Readable(d) && Effective(e) == Effective(d) && rel in Rels(d)
    ensures Readable(e) && rel in Rels(e) && CanRead(d, rel) && CanRead(e, rel) && Content(e, rel) == Content(d, rel)
  {
    assert rel in Material(d) && rel in Material(e) && Material(e)[rel] == Material(d)[rel];
  }

  lemma PlaceOf(last: Data, e: Data, rel: Rel)
    requires Finishes(last, e) && Readable(last) && rel in Rels(last) && CanRead(last, rel)
    ensures Fixed(rel) in e.files && e.files[Fixed(rel)] == Content(last, rel)
  {
    if HasLegacy(last) {
      hide HasLegacy, Rels, Source;
    } else {
      assert rel in RELAY_FILES ==> IsRelayField(Field(rel));
      assert rel in ADMIN_FILES ==> IsAdminField(Field(rel));
    }
  }

  lemma {:induction false} RetriesKeepOnlyPaths(states: seq<Data>)
    requires Retries(states)
    ensures OnlyCredentialPaths(states[|states| - 1]) <==> OnlyCredentialPaths(states[0])
    decreases |states|
  {
    if |states| > 1 {
      StripTwice(states[0]);
      RetriesKeepOnlyPaths(states[1..]);
    }
  }

  /** Such a configuration is accepted, migrated, and still due for migration afterwards. */
  lemma PathsCanStay(d: Data, checks: Checks)
    requires StripRelay(d.relay) == d.relay && d.admin == Some(map["ca_file" := File(Fixed(AdminCaPem))])
    requires forall rel :: rel in Rels(d) ==> Fixed(rel) in d.files
    requires checks.relay(d.relay, Material(d))
    ensures HasLegacy(d) && Succeeds(d, checks) && Finishes(d, d)
  {
    assert "ca_file" in d.admin.value && IsAdminField("ca_file");
    assert StripAdmin(d.admin.value) == map[];
    forall rel | rel in Rels(d) ensures CanRead(d, rel) && Source(d, rel) == File(Fixed(rel)) {}
  }

  // ----- The program -----

  class Store {
    var relay: Config
    var admin: Option<Config>
    var files: map<Path, Bytes>
    ghost var history: seq<Data>

    ghost function Now(): Data
      reads this
    {
      Data(relay, admin, files)
    }

    constructor (d: Data)
      ensures Now() == d && history == []
    {
      relay, admin, files, history := d.relay, d.admin, d.files, [];
    }

    method Write(p: Path, content: Bytes)
      modifies this`files, this`history
      ensures files == old(files)[p := content] && history == old(history) + [Now()]
    {
      files := files[p := content];
      history := history + [Now()];
    }

    method Unlink(p: Path)
      modifies this`files, this`history
      ensures files == Dropped(old(files), p) && history == old(history) + [Now()]
    {
      files := Dropped(files, p);
      history := history + [Now()];
    }

    method Migrate(run: nat, checks: Checks) returns (ok: bool)
      requires NoStaging(files, run)
      modifies this
      ensures ok <==> Succeeds(old(Now()), checks)
      ensures Since(old(history), history, old(Now()))
      ensures ok ==> Finishes(old(Now()), Now())
      ensures !ok ==> Now() == old(Now())
    {
      ghost var d, from := Now(), history;
      var before := Data(relay, admin, files);
      if !HasLegacy(before) {
        return true;
      }
      if !Readable(before) || !NoConflict(before) {
        return false;
      }
      var rels, material := Rels(before), Material(before);
      StageFiles(run, rels, material, d, from);
      var accepted := Accepted(before, checks);
      if accepted {
        PublishFiles(rels, material, d, from, run);
        PublishConfigs(d, from);
      }
      CleanUp(run, rels, d, from);
      return accepted;
    }

    /** Writes the candidate into a temporary directory. */
    method StageFiles(run: nat, rels: seq<Rel>, material: map<Rel, Bytes>, ghost d: Data, ghost from: seq<Data>)
      requires Now() == d && history == from && Migrating(d) && NoStaging(files, run)
      requires rels == Rels(d) && material == Material(d)
      modifies this`files, this`history
      ensures Copied(d, files) && Unstaged(files, run) == d.files && StagingOf(files, run, rels)
      ensures Since(from, history, d)
    {
      hide Readable, HasLegacy, NoConflict, Rels, StagingOf, Unstaged, Copied, Advances;
      NothingStaged(d, run, rels);
      var i := 0;
      while i < |rels|
        invariant i <= |rels| && Copied(d, files) && Unstaged(files, run) == d.files
        invariant StagingOf(files, run, rels) && Since(from, history, d)
      {
        StageMore(d, files, rels[i], run, rels);
        Write(Staged(run, rels[i]), material[rels[i]]);
        i := i + 1;
      }
    }

    /** Copies to the fixed places what is not there yet. */
    method PublishFiles(rels: seq<Rel>, material: map<Rel, Bytes>, ghost d: Data, ghost from: seq<Data>, ghost run: nat)
      requires Migrating(d) && Copied(d, files) && relay == d.relay && admin == d.admin
      requires rels == Rels(d) && material == Material(d) && StagingOf(files, run, rels) && Since(from, history, d)
      modifies this`files, this`history
      ensures Copied(d, files) && AllFixed(d, files) && StagingOf(files, run, rels) && Since(from, history, d)
    {
      hide Readable, HasLegacy, NoConflict, Rels, StagingOf, NewAdmin;
      var i := 0;
      while i < |rels|
        invariant i <= |rels| && Copied(d, files) && StagingOf(files, run, rels) && Since(from, history, d)
        invariant forall j :: 0 <= j < i ==> Fixed(rels[j]) in files
      {
        if Fixed(rels[i]) !in files {
          CopyMore(d, files, rels[i], run, rels);
          hide Copied;
          Write(Fixed(rels[i]), material[rels[i]]);
        }
        i := i + 1;
      }
    }

    /** The administrator's configuration first, the relay's last. */
    method PublishConfigs(ghost d: Data, ghost from: seq<Data>)
      requires Migrating(d) && Copied(d, files) && AllFixed(d, files) && relay == d.relay && admin == d.admin
      requires Since(from, history, d)
      modifies this`relay, this`admin, this`history
      ensures relay == StripRelay(d.relay) && admin == NewAdmin(d) && Since(from, history, d)
    {
      if admin.Some? && StripAdmin(admin.value) != map[] {
        admin := Some(StripAdmin(admin.value));
        history := history + [Now()];
      }
      relay := StripRelay(relay);
      history := history + [Now()];
    }

    /** Removes the temporary directory. */
    method CleanUp(run: nat, rels: seq<Rel>, ghost d: Data, ghost from: seq<Data>)
      requires Migrating(d) && NoStaging(d.files, run) && StagingOf(files, run, rels) && Since(from, history, d)
      requires Advances(d, Now()) && Copied(d, files)
      modifies this`files, this`history
      ensures files == Unstaged(old(files), run) && Copied(d, files) && Since(from, history, d)
      ensures AllFixed(d, old(files)) ==> AllFixed(d, files)
    {
      ghost var was := files;
      var i := 0;
      while i < |rels|
        invariant i <= |rels| && Unstaged(files, run) == Unstaged(was, run) && StagingOf(files, run, rels)
        invariant forall j :: 0 <= j < i ==> Staged(run, rels[j]) !in files
        invariant Advances(d, Now()) && Copied(d, files) && Since(from, history, d)
        invariant forall rel :: Fixed(rel) in was ==> Fixed(rel) in files
      {
        UnlinkKeeps(d, files, run, rels[i]);
        hide Copied, Unstaged, NoConflict, Readable, HasLegacy, Rels, NewAdmin;
        Unlink(Staged(run, rels[i]));
        i := i + 1;
      }
      assert Unstaged(files, run) == files;
    }
  }

  /** The disks recorded since `from` are ones the run may leave behind. */
  ghost predicate Since(from: seq<Data>, history: seq<Data>, d: Data) {
    from <= history && forall k :: |from| <= k < |history| ==> Advances(d, history[k])
  }

  predicate Migrating(d: Data) {
    HasLegacy(d) && Readable(d) && NoConflict(d)
  }

  ghost predicate NoStaging(files: map<Path, Bytes>, run: nat) {
    forall rel :: Staged(run, rel) !in files
  }

  /** This run staged nothing but the listed files. */
  ghost predicate StagingOf(files: map<Path, Bytes>, run: nat, rels: seq<Rel>) {
    forall rel :: Staged(run, rel) in files ==> rel in rels
  }

  function Dropped(files: map<Path, Bytes>, p: Path): map<Path, Bytes> {
    map q | q in files && q != p :: files[q]
  }

  lemma NothingStaged(d: Data, run: nat, rels: seq<Rel>)
    requires Migrating(d) && NoStaging(d.files, run)
    ensures Copied(d, d.files) && Unstaged(d.files, run) == d.files && StagingOf(d.files, run, rels)
  {
  }

  lemma StageMore(d: Data, files: map<Path, Bytes>, rel: Rel, run: nat, rels: seq<Rel>)
    requires Migrating(d) && Copied(d, files) && rel in Rels(d) && rel in rels && StagingOf(files, run, rels) && NoStaging(d.files, run)
    ensures rel in Material(d)
    ensures var more := files[Staged(run, rel) := Material(d)[rel]];
            && Copied(d, more) && StagingOf(more, run, rels) && Unstaged(more, run) == Unstaged(files, run)
            && Advances(d, Data(d.relay, d.admin, more))
  {
  }

  lemma CopyMore(d: Data, files: map<Path, Bytes>, rel: Rel, run: nat, rels: seq<Rel>)
    requires Migrating(d) && Copied(d, files) && rel in Rels(d) && Fixed(rel) !in files && StagingOf(files, run, rels)
    ensures rel in Material(d)
    ensures var more := files[Fixed(rel) := Material(d)[rel]];
            Copied(d, more) && StagingOf(more, run, rels) && Advances(d, Data(d.relay, d.admin, more))
  {
  }

  lemma UnlinkKeeps(d: Data, files: map<Path, Bytes>, run: nat, rel: Rel)
    requires Readable(d) && NoStaging(d.files, run) && Copied(d, files)
    ensures var after := Dropped(files, Staged(run, rel));
      Copied(d, after) && Unstaged(after, run) == Unstaged(files, run)
  {
  }

  function Unstaged(files: map<Path, Bytes>, run: nat): map<Path, Bytes> {
    map p | p in files && !(p.Staged? && p.run == run) :: files[p]
  }
}
