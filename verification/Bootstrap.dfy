/**
 First-run publication: `bootstrap` of packaging/macos/bootstrap.py.

 A complete generation of credentials is renamed into `.setup`, copied file by file to its place
 and deleted once `relay.json` exists. Each of those is one step, recorded in `history`; the process
 may die after any of them and be run again, and each run may generate a generation of its own.
 */
module Bootstrap {
  import opened Common
  import opened CredentialFiles

  datatype Endpoint = Endpoint(server: string, address: string, port: int)

  /** What the command line asked for. */
  datatype Request = Request(server: Option<string>, address: Option<string>, port: Option<int>)

  /** The contents of `.setup`; parts go missing only while it is being deleted. */
  datatype Generation = Generation(files: map<Rel, Bytes>, admin: Option<string>, relay: Option<Endpoint>)

  datatype Disk = Disk(
    files: map<Rel, Bytes>, admin: Option<string>, relay: Option<Endpoint>, setup: Option<Generation>)

  const SEVEN: seq<Rel> := RELAY_FILES + ADMIN_FILES

  predicate Complete(g: Generation) {
    (forall rel :: rel in SEVEN ==> rel in g.files) && g.admin.Some? && g.relay.Some?
  }

  predicate Differs(request: Request, configured: Endpoint) {
    || (request.server.Some? && request.server.value != configured.server)
    || (request.address.Some? && request.address.value != configured.address)
    || (request.port.Some? && request.port.value != configured.port)
  }

  predicate Conflicts(d: Disk, g: Generation) {
    exists rel :: rel in SEVEN && rel in d.files && rel in g.files && d.files[rel] != g.files[rel]
  }

  /** The generation a run works with: the one in place, or else its own. */
  function Using(d: Disk, own: Generation): Generation {
    if d.setup.Some? then d.setup.value else own
  }

  /**
   The calls whose work is modelled elsewhere or not at all: migrate_credentials, prepare_ca, setup
   with the search for an address, and the relay's own check of the published configuration.
   */
  datatype Calls = Calls(migrated: bool, prepared: bool, generated: bool, checked: bool)

  /** When an undisturbed run comes to the final check, with everything published. */
  predicate Publishes(d: Disk, request: Request, endpoint: Endpoint, own: Generation, calls: Calls) {
    if d.relay.Some? then !Differs(request, d.relay.value) && calls.migrated && calls.prepared
    else
      && calls.prepared && (d.setup.Some? || calls.generated)
      && var g := Using(d, own); g.relay == Some(endpoint) && !Conflicts(d, g)
  }

  /** Each file is as it was or as the generation has it. */
  predicate Mixed(d: Disk, e: Disk, g: Generation) {
    && (forall rel :: rel in d.files ==> rel in e.files)
    && (forall rel :: rel in e.files ==>
          (rel in g.files && e.files[rel] == g.files[rel]) || (rel in d.files && e.files[rel] == d.files[rel]))
  }

  /** Everything but relay.json is out. */
  predicate Published(e: Disk, g: Generation) {
    (forall rel :: rel in SEVEN ==> rel in e.files && rel in g.files && e.files[rel] == g.files[rel])
    && e.admin == g.admin
  }

  /** What one run using the generation `g`, dying at any point or not at all, may make of a disk. */
  predicate Advances(d: Disk, e: Disk, g: Generation) {
    || e == d
    || (&& d.relay.None?
        && (d.setup.Some? ==> g == d.setup.value)
        && Complete(g)
        && Mixed(d, e, g)
        && (e.files != d.files ==> !Conflicts(d, g))
        && (e.relay.None? ==> e.setup == Some(g))
        && (e.relay.Some? ==> e.relay == g.relay)
        && (e.relay.Some? || e.admin != d.admin ==> Published(e, g)))
  }

  /** A run of crashes and retries; each run brings a generation that it uses only if none is in place. */
  predicate Retries(disks: seq<Disk>, gens: seq<Generation>) {
    && |disks| == |gens| + 1
    && forall i :: 0 <= i < |gens| ==> Advances(disks[i], disks[i + 1], Using(disks[i], gens[i]))
  }

  /**
   Once a generation is in place, every later state is made of it alone: files are as they were or
   as it has them, and relay.json exists only when all seven files and admin.json are its own.
   */
  lemma {:induction false} OneGenerationIsPublished(disks: seq<Disk>, gens: seq<Generation>, g: Generation)
    requires Retries(disks, gens) && disks[0].setup == Some(g) && disks[0].relay.None? && Complete(g)
    ensures var last := disks[|disks| - 1];
      && Mixed(disks[0], last, g)
      && (last.relay.None? ==> last.setup == Some(g))
      && (last.relay.Some? ==> Published(last, g) && last.relay == g.relay && last.admin == g.admin)
      && (last.relay.Some? ==> forall rel: Rel :: rel in last.files && rel in g.files && last.files[rel] == g.files[rel])
      && (last.admin != disks[0].admin ==> Published(last, g))
    decreases |gens|
  {
    if |gens| > 0 {
      var n := |gens| - 1;
      var prefix := disks[..n + 1];
      assert Retries(prefix, gens[..n]);
      OneGenerationIsPublished(prefix, gens[..n], g);
      assert prefix[|prefix| - 1] == disks[n];
    }
    EveryFileCounts();
  }

  /** A first run that would have published still does after any crash, with the same endpoint, if its calls succeed. */
  lemma {:induction false} RetriesStillSucceed(
    disks: seq<Disk>, gens: seq<Generation>, g: Generation, request: Request, endpoint: Endpoint, own: Generation, calls: Calls)
    requires Retries(disks, gens) && disks[0].setup == Some(g) && disks[0].relay.None? && Complete(g)
    requires g.relay == Some(endpoint) && !Conflicts(disks[0], g) && !Differs(request, endpoint)
    ensures Publishes(disks[|disks| - 1], request, endpoint, own, calls) <==>
            calls.prepared && (disks[|disks| - 1].relay.Some? ==> calls.migrated)
  {
    OneGenerationIsPublished(disks, gens, g);
    var last := disks[|disks| - 1];
    if last.relay.None? {
      assert !Conflicts(last, g);
    }
  }

  lemma EveryFileCounts()
    ensures forall rel: Rel :: rel in SEVEN
  {
    forall rel: Rel ensures rel in SEVEN {
      match rel
      case ServerPem => assert SEVEN[0] == rel;
      case ServerKeyPem => assert SEVEN[1] == rel;
      case CaPem => assert SEVEN[2] == rel;
      case DevicesJson => assert SEVEN[3] == rel;
      case AdminCaPem => assert SEVEN[4] == rel;
      case AdminClientPem => assert SEVEN[5] == rel;
      case AdminClientKeyPem => assert SEVEN[6] == rel;
    }
  }

  /** No file that was there ever changes, at any point of any run: missing ones are added. */
  lemma AdvancesKeepsFiles(d: Disk, e: Disk, g: Generation)
    requires Advances(d, e, g)
    ensures forall rel: Rel :: rel in d.files ==> rel in e.files && e.files[rel] == d.files[rel]
  {
    EveryFileCounts();
  }

  lemma {:induction false} FilesNeverChange(disks: seq<Disk>, gens: seq<Generation>)
    requires Retries(disks, gens)
    ensures forall rel: Rel :: rel in disks[0].files ==>
              rel in disks[|gens|].files && disks[|gens|].files[rel] == disks[0].files[rel]
    decreases |gens|
  {
    if gens != [] {
      AdvancesKeepsFiles(disks[0], disks[1], Using(disks[0], gens[0]));
      assert forall i :: 0 <= i < |gens| - 1 ==> disks[1..][i] == disks[i + 1] && gens[1..][i] == gens[i + 1];
      FilesNeverChange(disks[1..], gens[1..]);
    }
  }

  /**
   A configured relay needs the same name, address and port as far as they were asked for. Otherwise
   `.setup`, there already or brought, must have the asked endpoint, and each of the seven files must be
   missing or the same.
   */
  lemma PublishesExactly(d: Disk, request: Request, endpoint: Endpoint, own: Generation, calls: Calls)
    requires Complete(own) && (d.setup.Some? && d.relay.None? ==> Complete(d.setup.value))
    ensures Publishes(d, request, endpoint, own, calls) <==>
            if d.relay.Some? then
              && calls.migrated && calls.prepared
              && (request.server == None || request.server == Some(d.relay.value.server))
              && (request.address == None || request.address == Some(d.relay.value.address))
              && (request.port == None || request.port == Some(d.relay.value.port))
            else
              var g := if d.setup.Some? then d.setup.value else own;
              && calls.prepared && (d.setup.Some? || calls.generated)
              && g.relay == Some(endpoint)
              && forall rel: Rel :: rel in d.files ==> rel in g.files && d.files[rel] == g.files[rel]
  {
    EveryFileCounts();
  }

  lemma SinceKeepsFiles(from: seq<Disk>, history: seq<Disk>, d: Disk, g: Generation)
    requires Since(from, history, d, g)
    ensures forall k, rel: Rel :: |from| <= k < |history| && rel in d.files ==>
              rel in history[k].files && history[k].files[rel] == d.files[rel]
  {
    hide Advances;
    forall k | |from| <= k < |history|
      ensures forall rel: Rel :: rel in d.files ==> rel in history[k].files && history[k].files[rel] == d.files[rel]
    {
      AdvancesKeepsFiles(d, history[k], g);
    }
  }

  lemma PublishedIsAll(e: Disk, g: Generation)
    requires Published(e, g)
    ensures forall rel: Rel :: rel in e.files && rel in g.files && e.files[rel] == g.files[rel]
  {
    EveryFileCounts();
  }

  class DataDirectory {
    var files: map<Rel, Bytes>
    var admin: Option<string>
    var relay: Option<Endpoint>
    var setup: Option<Generation>
    ghost var history: seq<Disk>

    ghost function Now(): Disk
      reads this
    {
      Disk(files, admin, relay, setup)
    }

    constructor (d: Disk)
      ensures Now() == d && history == []
    {
      files, admin, relay, setup, history := d.files, d.admin, d.relay, d.setup, [];
    }

    method Bootstrap(request: Request, endpoint: Endpoint, own: Generation, calls: Calls) returns (ok: bool)
      requires Complete(own)
      requires setup.Some? && relay.None? ==> Complete(setup.value)
      modifies this
      ensures ok <==> Publishes(old(Now()), request, endpoint, own, calls) && calls.checked
      ensures Since(old(history), history, old(Now()), Using(old(Now()), own))
      ensures Publishes(old(Now()), request, endpoint, own, calls) && old(relay).None? ==>
                setup.None? && relay == Some(endpoint) && Published(Now(), Using(old(Now()), own))
      ensures !Publishes(old(Now()), request, endpoint, own, calls) ==>
                files == old(files) && admin == old(admin) && relay == old(relay)
      ensures old(relay).Some? ==> Now() == old(Now())
      ensures forall k, rel: Rel :: |old(history)| <= k < |history| && rel in old(files) ==>
                rel in history[k].files && history[k].files[rel] == old(files)[rel]
      ensures ok && old(relay).None? ==>
                var g := if old(setup).Some? then old(setup).value else own;
                forall rel: Rel :: rel in files && rel in g.files && files[rel] == g.files[rel]
    {
      if relay.Some? {
        return !Differs(request, relay.value) && calls.migrated && calls.prepared && calls.checked;
      }
      if !calls.prepared {
        return false;
      }
      ghost var d, from := Now(), history;
      if setup.None? {
        if !calls.generated {
          return false;
        }
        setup := Some(own);
        history := history + [Now()];
      }
      var g := setup.value;
      assert g == Using(d, own) && Complete(g);
      hide Mixed, Published, Complete;
      if g.relay != Some(endpoint) {
        return false;
      }
      var conflict := FindConflict(g);
      if conflict {
        return false;
      }
      Publish(g, d, from);
      SinceKeepsFiles(from, history, d, g);
      PublishedIsAll(Now(), g);
      return calls.checked;
    }

    /** Credentials, then admin.json, then relay.json; only then does `.setup` go. */
    method Publish(g: Generation, ghost d: Disk, ghost from: seq<Disk>)
      requires Complete(g) && !Conflicts(d, g) && d.relay.None? && (d.setup.Some? ==> g == d.setup.value)
      requires Now() == d.(setup := Some(g)) && Since(from, history, d, g)
      modifies this
      ensures setup.None? && relay == g.relay && Published(Now(), g) && Since(from, history, d, g)
    {
      CopyFiles(g, d, from);
      assert d.files != files ==> !Conflicts(d, g);
      hide Conflicts, Mixed;
      admin := g.admin;
      history := history + [Now()];
      relay := g.relay;
      history := history + [Now()];
      assert Published(Now(), g) && Advances(d, Now(), g);
      hide Published, Advances;
      DeleteSetup(g, d, from);
    }

    method FindConflict(g: Generation) returns (conflict: bool)
      requires Complete(g)
      ensures conflict <==> Conflicts(Now(), g)
    {
      conflict := false;
      var i := 0;
      while i < |SEVEN|
        invariant i <= |SEVEN|
        invariant conflict <==> exists j :: 0 <= j < i && SEVEN[j] in files && files[SEVEN[j]] != g.files[SEVEN[j]]
      {
        if SEVEN[i] in files && files[SEVEN[i]] != g.files[SEVEN[i]] {
          conflict := true;
        }
        i := i + 1;
      }
    }

    method CopyFiles(g: Generation, ghost d: Disk, ghost from: seq<Disk>)
      requires Complete(g) && !Conflicts(d, g) && d.relay.None? && (d.setup.Some? ==> g == d.setup.value)
      requires Now() == d.(setup := Some(g)) && Since(from, history, d, g)
      modifies this`files, this`history
      ensures Mixed(d, Now(), g) && Since(from, history, d, g)
      ensures forall rel :: rel in SEVEN ==> rel in files && files[rel] == g.files[rel]
    {
      var i := 0;
      while i < |SEVEN|
        invariant i <= |SEVEN| && Mixed(d, Now(), g) && Since(from, history, d, g)
        invariant forall j :: 0 <= j < i ==> SEVEN[j] in files && files[SEVEN[j]] == g.files[SEVEN[j]]
      {
        files := files[SEVEN[i] := g.files[SEVEN[i]]];
        history := history + [Now()];
        i := i + 1;
      }
    }

    /** rmtree: nobody looks at what is left of `.setup` once relay.json exists. */
    method DeleteSetup(g: Generation, ghost d: Disk, ghost from: seq<Disk>)
      requires Complete(g) && Since(from, history, d, g) && Advances(d, Now(), g) && relay.Some? && d.relay.None?
      modifies this`setup, this`history
      ensures (Published(old(Now()), g) ==> Published(Now(), g)) && setup.None? && Since(from, history, d, g)
    {
      var left := g;
      var i := 0;
      while i < |SEVEN|
        invariant i <= |SEVEN| && Since(from, history, d, g) && Advances(d, Now(), g)
      {
        left := left.(files := map rel | rel in left.files && rel != SEVEN[i] :: left.files[rel]);
        setup := Some(left);
        history := history + [Now()];
        i := i + 1;
      }
      setup := None;
      history := history + [Now()];
    }
  }

  ghost predicate Since(from: seq<Disk>, history: seq<Disk>, d: Disk, g: Generation) {
    from <= history && forall k :: |from| <= k < |history| ==> Advances(d, history[k], g)
  }
}
