/**
 The signing issuer's move to its fixed directory: prepare_ca of tools/tls_admin.py.

 The disk is the set of issuer directories and the provisioning settings. Every rename, file write
 and unlink is one step, recorded in `history`, and the process may die after any of them and be
 run again. What `cryptography` decides about a key pair and a fingerprint is a parameter.
 */
module IssuerMigration {
  import opened Common

  type Bytes = string
  type Dir = map<string, Bytes>

  datatype Place = Destination | Legacy | Elsewhere(path: string) | Staging(run: nat)

  datatype Settings = Settings(caroot: Option<Place>)

  datatype Disk = Disk(dirs: map<Place, Dir>, settings: Option<Settings>)

  datatype Crypto = Crypto(pairs: (Bytes, Bytes) -> bool, fingerprint: Bytes -> Bytes)

  const NAMES: seq<string> := ["rootCA.pem", "rootCA-key.pem", "zimbr-dedicated-ca"]

  /** The three files that make an issuer. */
  predicate HasIssuer(d: Dir) {
    "rootCA.pem" in d && "rootCA-key.pem" in d && "zimbr-dedicated-ca" in d
  }

  function Material(d: Dir): (m: Dir)
    requires HasIssuer(d)
    ensures forall x :: x in m <==> x in NAMES
    ensures forall x :: x in m ==> x in d && m[x] == d[x]
  {
    map["rootCA.pem" := d["rootCA.pem"], "rootCA-key.pem" := d["rootCA-key.pem"],
        "zimbr-dedicated-ca" := d["zimbr-dedicated-ca"]]
  }

  predicate HoldsIssuer(disk: Disk, p: Place, m: Dir) {
    p in disk.dirs && HasIssuer(disk.dirs[p]) && Material(disk.dirs[p]) == m
  }

  /** validate_issuer: the key belongs to the certificate, which is the installed one if there is one. */
  predicate Valid(disk: Disk, p: Place, ca: Option<Bytes>, crypto: Crypto) {
    && p in disk.dirs
    && HasIssuer(disk.dirs[p])
    && crypto.pairs(disk.dirs[p]["rootCA.pem"], disk.dirs[p]["rootCA-key.pem"])
    && (ca.Some? ==> crypto.fingerprint(disk.dirs[p]["rootCA.pem"]) == crypto.fingerprint(ca.value))
  }

  /** The issuer the settings name, or else the old default, or else the fixed directory. */
  function Selected(disk: Disk): Place {
    if disk.settings.Some? && disk.settings.value.caroot.Some? then disk.settings.value.caroot.value
    else if Legacy in disk.dirs then Legacy
    else Destination
  }

  /** The selected issuer is another directory that is there to be moved or copied. */
  predicate ToMove(disk: Disk) {
    Selected(disk) != Destination && Selected(disk) in disk.dirs
  }

  /** When an undisturbed run ends without an error. */
  predicate Succeeds(disk: Disk, ca: Option<Bytes>, crypto: Crypto) {
    var selected := Selected(disk);
    if ToMove(disk) then
      && Valid(disk, selected, ca, crypto)
      && (Destination in disk.dirs ==>
            && selected != Legacy
            && Valid(disk, Destination, ca, crypto)
            && Material(disk.dirs[Destination]) == Material(disk.dirs[selected]))
    else
      ca.Some? || selected != Destination ==> Valid(disk, Destination, ca, crypto)
  }

  /** Nothing but staging directories differs. */
  predicate SameButStaging(a: map<Place, Dir>, b: map<Place, Dir>) {
    && (forall p :: p in a ==> p in b && a[p] == b[p])
    && (forall p :: p in b && p !in a ==> p.Staging?)
  }

  /** The selected issuer has reached the fixed directory. */
  predicate Moved(d: Disk, e: Disk) {
    if !ToMove(d) then e.dirs == d.dirs
    else if Selected(d) == Legacy then
      e.dirs == (map p | p in d.dirs && p != Legacy :: d.dirs[p])[Destination := d.dirs[Legacy]]
    else if Destination in d.dirs then e.dirs == d.dirs
    else HasIssuer(d.dirs[Selected(d)]) && e.dirs == d.dirs[Destination := Material(d.dirs[Selected(d)])]
  }

  /** What one run, dying at any point or not at all, may make of a disk. */
  predicate Advances(d: Disk, e: Disk, ca: Option<Bytes>, crypto: Crypto) {
    || (e.settings == d.settings && SameButStaging(d.dirs, e.dirs))
    || (Succeeds(d, ca, crypto) && Moved(d, e) && (e.settings == d.settings || e.settings == None))
  }

  /** What a run that ends well makes of it. */
  predicate Finishes(d: Disk, e: Disk, ca: Option<Bytes>, crypto: Crypto) {
    Succeeds(d, ca, crypto) && Moved(d, e) && e.settings == None
  }

  class Host {
    var dirs: map<Place, Dir>
    var settings: Option<Settings>
    ghost var history: seq<Disk>

    ghost function Now(): Disk
      reads this
    {
      Disk(dirs, settings)
    }

    constructor (dirs: map<Place, Dir>, settings: Option<Settings>)
      ensures Now() == Disk(dirs, settings) && history == []
    {
      this.dirs, this.settings, history := dirs, settings, [];
    }

    method PrepareCa(ca: Option<Bytes>, run: nat, crypto: Crypto) returns (ok: bool)
      requires Staging(run) !in dirs
      modifies this
      ensures ok <==> Succeeds(old(Now()), ca, crypto)
      ensures ok ==> Finishes(old(Now()), Now(), ca, crypto)
      ensures !ok ==> Now() == old(Now()) && history == old(history)
      ensures old(history) <= history
      ensures forall k :: |old(history)| <= k < |history| ==> Advances(old(Now()), history[k], ca, crypto)
    {
      hide Valid, HasIssuer, SameButStaging, Moved;
      ghost var d := Now();
      var selected := if settings.Some? && settings.value.caroot.Some? then settings.value.caroot.value
                      else if Legacy in dirs then Legacy else Destination;
      if selected != Destination && selected in dirs {
        ok := Move(selected, ca, run, crypto);
        if !ok { return; }
      } else {
        NothingMoves(d);
        if ca.Some? || selected != Destination {
          if !Validate(Destination, ca, crypto) {
            return false;
          }
        }
      }
      if settings.Some? {
        MovedAlike(d, Now(), Disk(dirs, None));
        settings := None;
        history := history + [Now()];
      }
      return true;
    }

    /** Brings the selected issuer, which is elsewhere, to the fixed directory. */
    method Move(selected: Place, ca: Option<Bytes>, run: nat, crypto: Crypto) returns (ok: bool)
      requires Staging(run) !in dirs && selected == Selected(Now()) && ToMove(Now())
      modifies this
      ensures ok <==> Succeeds(old(Now()), ca, crypto)
      ensures settings == old(settings) && if ok then Moved(old(Now()), Now()) else Now() == old(Now()) && history == old(history)
      ensures old(history) <= history
      ensures forall k :: |old(history)| <= k < |history| ==> Advances(old(Now()), history[k], ca, crypto)
    {
      hide SameButStaging;
      ghost var d := Now();
      if !Validate(selected, ca, crypto) {
        return false;
      }
      if selected == Legacy {
        if Destination in dirs {
          return false;
        }
        dirs := (map p | p in dirs && p != Legacy :: dirs[p])[Destination := dirs[Legacy]];
        history := history + [Now()];
      } else {
        var material := Material(dirs[selected]);
        if Destination in dirs {
          if !Validate(Destination, ca, crypto) || Material(dirs[Destination]) != material {
            return false;
          }
        } else {
          Publish(material, run);
          assert Moved(d, Now());
          assert forall k :: |old(history)| <= k < |history| - 1 ==>
            history[k] == history[|old(history)|..|history| - 1][k - |old(history)|];
        }
      }
      return true;
    }

    predicate Validate(p: Place, ca: Option<Bytes>, crypto: Crypto)
      reads this
    {
      Valid(Disk(dirs, settings), p, ca, crypto)
    }

    /** One file of the staging directory. */
    method Stage(run: nat, name: string, content: Bytes)
      requires Staging(run) in dirs
      modifies this
      ensures Now() == Disk(old(dirs)[Staging(run) := old(dirs)[Staging(run)][name := content]], old(settings))
      ensures history == old(history) + [Now()]
    {
      dirs := dirs[Staging(run) := dirs[Staging(run)][name := content]];
      history := history + [Now()];
    }

    /** Writes the material into a new staging directory. */
    method StageAll(material: Dir, run: nat)
      requires Staging(run) !in dirs
      requires forall x :: x in material <==> x in NAMES
      modifies this
      ensures Now() == Disk(old(dirs)[Staging(run) := material], old(settings))
      ensures old(history) < history && OnlyStaged(old(Now()), history[|old(history)|..])
    {
      hide StagedPrefix, OnlyStaged, SameButStaging;
      ghost var d, from := Now(), history;
      dirs := dirs[Staging(run) := map[]];
      history := history + [Now()];
      ghost var staged: Dir := map[];
      StagedNone(d, Now(), run, material);
      ghost var h := [Now()];
      var i := 0;
      while i < |NAMES|
        invariant i <= |NAMES| && StagedPrefix(staged, material, i)
        invariant Now() == Disk(d.dirs[Staging(run) := staged], d.settings)
        invariant history == from + h && h != [] && OnlyStaged(d, h)
      {
        NextPrefix(staged, material, i);
        Stage(run, NAMES[i], material[NAMES[i]]);
        staged := staged[NAMES[i] := material[NAMES[i]]];
        StagedBeside(d, Now(), run, staged);
        StagedMore(d, h, Now());
        h := h + [Now()];
        i := i + 1;
      }
      WholePrefix(staged, material);
      assert history[|from|..] == h;
    }

    /** Copies the material into a staging directory and renames that into place. */
    method Publish(material: Dir, run: nat)
      requires Destination !in dirs && Staging(run) !in dirs
      requires forall x :: x in material <==> x in NAMES
      modifies this
      ensures settings == old(settings) && dirs == old(dirs)[Destination := material]
      ensures old(history) < history && history[|history| - 1] == Now()
      ensures OnlyStaged(old(Now()), history[|old(history)|..|history| - 1])
    {
      StageAll(material, run);
      ghost var before := history;
      hide OnlyStaged;
      dirs := (map p | p in dirs && p != Staging(run) :: dirs[p])[Destination := dirs[Staging(run)]];
      history := history + [Now()];
      assert history[|old(history)|..|history| - 1] == before[|old(history)|..];
    }
  }

  /** Every one of these disks is `d` with more staging directories. */
  predicate OnlyStaged(d: Disk, disks: seq<Disk>) {
    forall k :: 0 <= k < |disks| ==> disks[k].settings == d.settings && SameButStaging(d.dirs, disks[k].dirs)
  }

  lemma MovedAlike(d: Disk, e: Disk, f: Disk)
    requires Moved(d, e) && f.dirs == e.dirs
    ensures Moved(d, f)
  {
  }

  lemma NothingMoves(d: Disk)
    requires !ToMove(d)
    ensures forall e: Disk :: e.dirs == d.dirs ==> Moved(d, e)
  {
  }

  lemma StagedBeside(d: Disk, e: Disk, run: nat, staged: Dir)
    requires Staging(run) !in d.dirs && e.dirs == d.dirs[Staging(run) := staged]
    ensures SameButStaging(d.dirs, e.dirs)
  {
  }

  lemma StagedNone(d: Disk, e: Disk, run: nat, material: Dir)
    requires Staging(run) !in d.dirs && e == Disk(d.dirs[Staging(run) := map[]], d.settings)
    ensures OnlyStaged(d, [e]) && StagedPrefix(map[], material, 0)
  {
  }

  lemma StagedMore(d: Disk, disks: seq<Disk>, e: Disk)
    requires OnlyStaged(d, disks) && e.settings == d.settings && SameButStaging(d.dirs, e.dirs)
    ensures OnlyStaged(d, disks + [e])
  {
  }

  /** The first `i` files have been staged. */
  ghost predicate StagedPrefix(staged: Dir, material: Dir, i: nat)
    requires i <= |NAMES|
  {
    && (forall x :: x in staged <==> x in NAMES[..i])
    && (forall x :: x in staged ==> x in material && staged[x] == material[x])
  }

  lemma NextPrefix(staged: Dir, material: Dir, i: nat)
    requires i < |NAMES| && StagedPrefix(staged, material, i)
    requires forall x :: x in material <==> x in NAMES
    ensures NAMES[i] in material
    ensures StagedPrefix(staged[NAMES[i] := material[NAMES[i]]], material, i + 1)
  {
    assert NAMES[i] in NAMES;
    assert NAMES[..i + 1] == NAMES[..i] + [NAMES[i]];
  }

  lemma WholePrefix(staged: Dir, material: Dir)
    requires StagedPrefix(staged, material, |NAMES|)
    requires forall x :: x in material <==> x in NAMES
    ensures staged == material
  {
    assert NAMES[..|NAMES|] == NAMES;
  }

  // ----- What a run that ends well has checked -----

  /** The directory holds the three files, its key is its certificate's, and that is the installed one if any is. */
  predicate Matches(d: Dir, ca: Option<Bytes>, crypto: Crypto) {
    && "rootCA.pem" in d && "rootCA-key.pem" in d && "zimbr-dedicated-ca" in d
    && crypto.pairs(d["rootCA.pem"], d["rootCA-key.pem"])
    && (ca == None || crypto.fingerprint(d["rootCA.pem"]) == crypto.fingerprint(ca.value))
  }

  /**
   With settings that name an issuer elsewhere, this must match; so must an issuer in the fixed directory,
   and be the same in all three files.
   */
  lemma CustomIssuerIsChecked(disk: Disk, path: string, ca: Option<Bytes>, crypto: Crypto)
    requires disk.settings == Some(Settings(Some(Elsewhere(path))))
    ensures Succeeds(disk, ca, crypto) <==>
            if Elsewhere(path) in disk.dirs then
              var d := disk.dirs[Elsewhere(path)];
              && Matches(d, ca, crypto)
              && (Destination in disk.dirs ==>
                    var e := disk.dirs[Destination];
                    && Matches(e, ca, crypto) && e["rootCA.pem"] == d["rootCA.pem"]
                    && e["rootCA-key.pem"] == d["rootCA-key.pem"] && e["zimbr-dedicated-ca"] == d["zimbr-dedicated-ca"])
            else Destination in disk.dirs && Matches(disk.dirs[Destination], ca, crypto)
  {
  }

  /**
   Without them the old default directory must match and have the fixed one's place to itself; and where
   there is none, the fixed one must match once a certificate is installed.
   */
  lemma DefaultIssuerIsChecked(disk: Disk, ca: Option<Bytes>, crypto: Crypto)
    requires disk.settings == None || disk.settings == Some(Settings(None))
    ensures Succeeds(disk, ca, crypto) <==>
            if Legacy in disk.dirs then Matches(disk.dirs[Legacy], ca, crypto) && Destination !in disk.dirs
            else ca == None || (Destination in disk.dirs && Matches(disk.dirs[Destination], ca, crypto))
  {
  }

  // ----- Crashes and retries -----

  /** The issuer `m` is where the next run will find it. */
  predicate Safe(disk: Disk, m: Dir) {
    || (ToMove(disk) && HoldsIssuer(disk, Selected(disk), m))
    || (HoldsIssuer(disk, Destination, m) && (ToMove(disk) ==> Selected(disk) == Legacy))
  }

  /**
   Runs one after another, each dying wherever it likes, for the certificates that were installed when
   they began; the settings name no staging directory.
   */
  predicate Retries(disks: seq<Disk>, cas: seq<Option<Bytes>>, crypto: Crypto) {
    && |disks| == |cas| + 1
    && !Selected(disks[0]).Staging?
    && forall i :: 0 <= i < |cas| ==> Advances(disks[i], disks[i + 1], cas[i], crypto)
  }

  lemma RetriesGoOn(disks: seq<Disk>, cas: seq<Option<Bytes>>, crypto: Crypto)
    requires Retries(disks, cas, crypto) && cas != []
    ensures Retries(disks[1..], cas[1..], crypto) && Advances(disks[0], disks[1], cas[0], crypto)
  {
    assert disks[1..][0] == disks[1];
  }

  lemma AdvancesKeepsSafe(d: Disk, e: Disk, m: Dir, ca: Option<Bytes>, crypto: Crypto)
    requires Safe(d, m) && Advances(d, e, ca, crypto) && !Selected(d).Staging?
    ensures Safe(e, m) && !Selected(e).Staging?
  {
  }

  lemma AdvancesKeepsOthers(d: Disk, e: Disk, path: string, ca: Option<Bytes>, crypto: Crypto)
    requires Advances(d, e, ca, crypto) && Elsewhere(path) in d.dirs
    ensures Elsewhere(path) in e.dirs && e.dirs[Elsewhere(path)] == d.dirs[Elsewhere(path)]
  {
  }

  /**
   Whatever crashes came before it, a run that succeeds leaves the issuer that was selected at the
   start in the fixed directory, byte for byte.
   */
  lemma {:induction false} SuccessPublishesTheSelectedIssuer(
    disks: seq<Disk>, cas: seq<Option<Bytes>>, e: Disk, m: Dir, ca: Option<Bytes>, crypto: Crypto)
    requires Retries(disks, cas, crypto) && Safe(disks[0], m)
    requires Finishes(disks[|cas|], e, ca, crypto)
    ensures HoldsIssuer(e, Destination, m) && e.settings == None
    decreases |disks|
  {
    if cas != [] {
      AdvancesKeepsSafe(disks[0], disks[1], m, cas[0], crypto);
      SuccessPublishesTheSelectedIssuer(disks[1..], cas[1..], e, m, ca, crypto);
    }
  }

  /** A custom issuer is copied: its own files outlive every run. */
  lemma {:induction false} CustomIssuersNeverChange(disks: seq<Disk>, cas: seq<Option<Bytes>>, path: string, crypto: Crypto)
    requires Retries(disks, cas, crypto) && Elsewhere(path) in disks[0].dirs
    ensures var last := disks[|cas|];
      Elsewhere(path) in last.dirs && last.dirs[Elsewhere(path)] == disks[0].dirs[Elsewhere(path)]
    decreases |disks|
  {
    if cas != [] {
      AdvancesKeepsOthers(disks[0], disks[1], path, cas[0], crypto);
      RetriesGoOn(disks, cas, crypto);
      CustomIssuersNeverChange(disks[1..], cas[1..], path, crypto);
    }
  }

  /** What stops a run that follows a finished one: the old default, back in charge without settings. */
  predicate Blocked(e: Disk, ca: Option<Bytes>, crypto: Crypto) {
    e.settings.None? && Legacy in e.dirs && (Destination in e.dirs || !Valid(e, Legacy, ca, crypto))
  }

  /** Blocked by what no run changes, whichever certificate is installed. */
  predicate Stuck(e: Disk, crypto: Crypto) { Blocked(e, None, crypto) }

  lemma RunSucceedsAgainOrSticks(d: Disk, e: Disk, was: Option<Bytes>, ca: Option<Bytes>, crypto: Crypto)
    requires Succeeds(d, ca, crypto) && Advances(d, e, was, crypto) && !Selected(d).Staging?
    ensures if Blocked(e, ca, crypto) then Stuck(e, crypto) else Succeeds(e, ca, crypto)
  {
  }

  lemma {:induction false} StuckForGood(disks: seq<Disk>, cas: seq<Option<Bytes>>, ca: Option<Bytes>, crypto: Crypto)
    requires Retries(disks, cas, crypto) && Stuck(disks[0], crypto)
    ensures Blocked(disks[|cas|], ca, crypto) && !Succeeds(disks[|cas|], ca, crypto)
    decreases |disks|
  {
    if cas != [] {
      RetriesGoOn(disks, cas, crypto);
      StuckForGood(disks[1..], cas[1..], ca, crypto);
    }
  }

  /**
   A run that would have succeeded at the start does so after any number of runs that died or ended,
   whatever certificates these saw, exactly when the old default directory is not in the way then. Once
   the settings are gone, an old default directory that was passed over blocks every later run.
   */
  lemma {:induction false} RetrySucceedsUnlessBlocked(disks: seq<Disk>, cas: seq<Option<Bytes>>, ca: Option<Bytes>, crypto: Crypto)
    requires Retries(disks, cas, crypto) && Succeeds(disks[0], ca, crypto)
    ensures Succeeds(disks[|cas|], ca, crypto) <==> !Blocked(disks[|cas|], ca, crypto)
    decreases |disks|
  {
    hide Advances, Valid;
    if cas != [] {
      RetriesGoOn(disks, cas, crypto);
      RunSucceedsAgainOrSticks(disks[0], disks[1], cas[0], ca, crypto);
      if Blocked(disks[1], ca, crypto) {
        StuckForGood(disks[1..], cas[1..], ca, crypto);
      } else {
        RetrySucceedsUnlessBlocked(disks[1..], cas[1..], ca, crypto);
      }
    }
  }

  /** A custom issuer beside an old default directory: the first run succeeds and the next one fails. */
  lemma SecondRunCanFail(custom: Dir, legacy: Dir, crypto: Crypto)
    requires custom.Keys == {"rootCA.pem", "rootCA-key.pem", "zimbr-dedicated-ca"}
    requires crypto.pairs(custom["rootCA.pem"], custom["rootCA-key.pem"])
    ensures var d := Disk(map[Legacy := legacy, Elsewhere("custom") := custom], Some(Settings(Some(Elsewhere("custom")))));
            var e := Disk(d.dirs[Destination := custom], None);
            Safe(d, custom) && Finishes(d, e, None, crypto) && !Succeeds(e, None, crypto)
  {
    assert Material(custom) == custom;
  }
}
