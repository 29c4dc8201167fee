// internal/config and internal/api: the profile store and its three operations.
module ProfileStore {
  import opened Basics
  import opened Profiles
  import Slugs

  predicate Has(ps: seq<Profile>, id: string) {
    exists i | 0 <= i < |ps| :: ps[i].id == id
  }

  // Identifiers are distinct, and none is empty or padded.
  ghost predicate DistinctIds(ps: seq<Profile>) {
    && (forall i, j | 0 <= i < j < |ps| :: ps[i].id != ps[j].id)
    && (forall i | 0 <= i < |ps| :: ps[i].id != "" && TrimSpace(ps[i].id) == ps[i].id)
  }

  // The selected identifier is empty or that of a profile, and the flag is on that profile and no other.
  ghost predicate SelectionAgrees(selectedID: string, ps: seq<Profile>) {
    && (selectedID == "" || Has(ps, selectedID))
    && (forall i | 0 <= i < |ps| :: ps[i].selected <==> ps[i].id == selectedID)
  }

  ghost predicate AllConsistent(ps: seq<Profile>) {
    forall i | 0 <= i < |ps| :: Consistent(ps[i].ssh, ps[i].transport)
  }

  ghost predicate Sound(selectedID: string, ps: seq<Profile>) {
    DistinctIds(ps) && SelectionAgrees(selectedID, ps) && AllConsistent(ps)
  }

  // The flags as SelectByID leaves them.
  function Flagged(ps: seq<Profile>, id: string): (r: seq<Profile>)
    ensures |r| == |ps| && forall i | 0 <= i < |ps| :: r[i] == ps[i].(selected := ps[i].id == id)
  {
    if ps == [] then [] else [ps[0].(selected := ps[0].id == id)] + Flagged(ps[1..], id)
  }

  function Without(ps: seq<Profile>, k: nat): seq<Profile>
    requires k < |ps|
  {
    ps[..k] + ps[k + 1..]
  }

  lemma FlaggedHas(ps: seq<Profile>, id: string)
    ensures forall x :: Has(ps, x) <==> Has(Flagged(ps, id), x)
  {
    var r := Flagged(ps, id);
    forall x ensures Has(ps, x) <==> Has(r, x) {
      if i :| 0 <= i < |ps| && ps[i].id == x {
        assert r[i].id == x;
      }
      if i :| 0 <= i < |r| && r[i].id == x {
        assert ps[i].id == x;
      }
    }
  }

  lemma FlaggedDistinct(ps: seq<Profile>, id: string)
    ensures DistinctIds(ps) <==> DistinctIds(Flagged(ps, id))
  {
    hide TrimSpace;
    assert forall i | 0 <= i < |ps| :: ps[i].id == Flagged(ps, id)[i].id;
  }

  lemma FlaggedConsistent(ps: seq<Profile>, id: string)
    ensures AllConsistent(ps) <==> AllConsistent(Flagged(ps, id))
  {
    hide Consistent;
    var r := Flagged(ps, id);
    assert forall i | 0 <= i < |ps| :: ps[i].ssh == r[i].ssh && ps[i].transport == r[i].transport;
  }

  lemma FlaggedAgrees(ps: seq<Profile>, id: string)
    ensures Has(ps, id) ==> SelectionAgrees(id, Flagged(ps, id))
  {
    FlaggedHas(ps, id);
  }

  // A selection that does not find its profile still clears every flag. It keeps the store sound if and only
  // if it finds it, or nothing was selected.
  lemma SelectingKeepsSound(selectedID: string, ps: seq<Profile>, id: string)
    requires Sound(selectedID, ps) && id != ""
    ensures Sound(if Has(ps, id) then id else selectedID, Flagged(ps, id)) <==> Has(ps, id) || selectedID == ""
  {
    FlaggedHas(ps, id);
    FlaggedDistinct(ps, id);
    FlaggedConsistent(ps, id);
    hide DistinctIds, AllConsistent;
    var r := Flagged(ps, id);
    if !Has(ps, id) {
      assert forall i | 0 <= i < |ps| :: ps[i].id != id;
      if selectedID != "" {
        var i :| 0 <= i < |r| && r[i].id == selectedID;
        assert !r[i].selected;
      } else {
        NobodyEmpty(selectedID, ps);
      }
    }
  }

  lemma NobodyEmpty(selectedID: string, ps: seq<Profile>)
    requires Sound(selectedID, ps)
    ensures !Has(ps, "")
  {
  }

  lemma DeletingKeepsSound(selectedID: string, ps: seq<Profile>, k: nat)
    requires Sound(selectedID, ps) && k < |ps|
    ensures Sound(if selectedID == ps[k].id then "" else selectedID, Without(ps, k))
    ensures forall id :: Has(Without(ps, k), id) <==> Has(ps, id) && id != ps[k].id
  {
    hide Consistent, TrimSpace;
    var r := Without(ps, k);
    forall i | 0 <= i < |r| ensures r[i] == ps[if i < k then i else i + 1] {
    }
    forall id ensures Has(r, id) <==> Has(ps, id) && id != ps[k].id {
      if Has(ps, id) && id != ps[k].id {
        var i :| 0 <= i < |ps| && ps[i].id == id;
        assert r[if i < k then i else i - 1].id == id;
      }
    }
  }

  // Putting a profile in place of the one with its identifier, or at the end when there is none.
  function Put(ps: seq<Profile>, p: Profile): seq<Profile> {
    if ps == [] then [p] else if ps[0].id == p.id then [p] + ps[1..] else [ps[0]] + Put(ps[1..], p)
  }

  lemma {:induction false} PutAbsent(ps: seq<Profile>, p: Profile)
    requires forall i | 0 <= i < |ps| :: ps[i].id != p.id
    ensures Put(ps, p) == ps + [p]
  {
    if ps != [] {
      PutAbsent(ps[1..], p);
      assert ps + [p] == [ps[0]] + (ps[1..] + [p]);
    }
  }

  lemma {:induction false} PutAt(ps: seq<Profile>, p: Profile, k: nat)
    requires k < |ps| && ps[k].id == p.id && forall j | 0 <= j < k :: ps[j].id != p.id
    ensures Put(ps, p) == ps[k := p]
  {
    if k > 0 {
      PutAt(ps[1..], p, k - 1);
      assert ps[k := p] == [ps[0]] + ps[1..][k - 1 := p];
    }
  }

  // What a save leaves: the profile in its place or at the end, and selected if asked for, if nothing was, or
  // if it already was.
  function Saved(ps: seq<Profile>, p: Profile, creatingNew: bool): seq<Profile> {
    if creatingNew then ps + [p] else Put(ps, p)
  }

  predicate Selects(select: bool, selectedID: string, id: string) {
    select || selectedID == "" || selectedID == id
  }

  lemma AppendKeepsIds(ps: seq<Profile>, p: Profile)
    requires DistinctIds(ps) && p.id != "" && TrimSpace(p.id) == p.id
    ensures DistinctIds(ps + [p]) <==> !Has(ps, p.id)
    ensures forall x :: Has(ps + [p], x) <==> Has(ps, x) || x == p.id
  {
    hide TrimSpace;
    var r := ps + [p];
    assert r[|ps|] == p;
    if i :| 0 <= i < |ps| && ps[i].id == p.id {
      assert r[i].id == r[|ps|].id;
    }
    forall x ensures Has(r, x) <==> Has(ps, x) || x == p.id {
      if i :| 0 <= i < |ps| && ps[i].id == x {
        assert r[i].id == x;
      }
    }
  }

  lemma PutKeepsIds(ps: seq<Profile>, p: Profile)
    requires DistinctIds(ps) && p.id != "" && TrimSpace(p.id) == p.id
    ensures DistinctIds(Put(ps, p))
    ensures forall x :: Has(Put(ps, p), x) <==> Has(ps, x) || x == p.id
    ensures forall i | 0 <= i < |Put(ps, p)| :: Put(ps, p)[i] == p || (i < |ps| && Put(ps, p)[i] == ps[i] && ps[i].id != p.id)
  {
    hide TrimSpace;
    if Has(ps, p.id) {
      var i :| 0 <= i < |ps| && ps[i].id == p.id;
      PutAt(ps, p, i);
      hide Put;
      var r := ps[i := p];
      assert r[i].id == p.id;
      forall x ensures Has(r, x) <==> Has(ps, x) || x == p.id {
        if j :| 0 <= j < |ps| && ps[j].id == x {
          assert r[j].id == x;
        }
      }
    } else {
      PutAbsent(ps, p);
      AppendKeepsIds(ps, p);
    }
  }

  ghost predicate SoundAfterSave(selectedID: string, r: seq<Profile>, id: string, select: bool) {
    if Selects(select, selectedID, id) then Sound(id, Flagged(r, id)) else Sound(selectedID, r)
  }

  lemma PlacingKeepsSound(selectedID: string, ps: seq<Profile>, p: Profile, creatingNew: bool, select: bool)
    requires Sound(selectedID, ps) && p.id != "" && TrimSpace(p.id) == p.id
    requires Consistent(p.ssh, p.transport) && !p.selected
    ensures SoundAfterSave(selectedID, Saved(ps, p, creatingNew), p.id, select) <==> !(creatingNew && Has(ps, p.id))
  {
    var r := Saved(ps, p, creatingNew);
    SavedProfiles(ps, p, creatingNew);
    hide Saved, Consistent;
    if Selects(select, selectedID, p.id) {
      FlaggedDistinct(r, p.id);
      FlaggedConsistent(r, p.id);
      FlaggedAgrees(r, p.id);
      hide DistinctIds, AllConsistent, SelectionAgrees;
    } else {
      hide DistinctIds, AllConsistent;
      assert forall i | 0 <= i < |r| :: r[i].selected <==> r[i].id == selectedID;
    }
  }

  lemma SavedProfiles(ps: seq<Profile>, p: Profile, creatingNew: bool)
    requires DistinctIds(ps) && AllConsistent(ps) && p.id != "" && TrimSpace(p.id) == p.id && Consistent(p.ssh, p.transport)
    ensures var r := Saved(ps, p, creatingNew);
            && (DistinctIds(r) <==> !(creatingNew && Has(ps, p.id))) && AllConsistent(r)
            && (forall x :: Has(r, x) <==> Has(ps, x) || x == p.id)
            && (forall i | 0 <= i < |r| :: r[i] == p || (i < |ps| && r[i] == ps[i]))
  {
    if creatingNew {
      AppendKeepsIds(ps, p);
    } else {
      PutKeepsIds(ps, p);
    }
    hide DistinctIds, Put, TrimSpace, Has, Consistent;
  }

  // --- Saves -----------------------------------------------------------------------------------------------

  function Ids(ps: seq<Profile>): (ids: seq<string>)
    ensures |ids| == |ps| && forall i | 0 <= i < |ps| :: ids[i] == ps[i].id
  {
    if ps == [] then [] else [ps[0].id] + Ids(ps[1..])
  }

  function OldPassword(ps: seq<Profile>, id: string): string {
    if ps == [] then "" else if ps[0].id == id then ps[0].ssh.password else OldPassword(ps[1..], id)
  }

  lemma {:induction false} OldPasswordAt(ps: seq<Profile>, id: string)
    ensures !Has(ps, id) ==> OldPassword(ps, id) == ""
    ensures forall k | 0 <= k < |ps| && ps[k].id == id && (forall j | 0 <= j < k :: ps[j].id != id) ::
              OldPassword(ps, id) == ps[k].ssh.password
  {
    if ps != [] && ps[0].id != id {
      OldPasswordAt(ps[1..], id);
      if Has(ps[1..], id) {
        var i :| 0 <= i < |ps[1..]| && ps[1..][i].id == id;
        assert ps[i + 1].id == id;
      }
      forall k | 0 <= k < |ps| && ps[k].id == id && (forall j | 0 <= j < k :: ps[j].id != id)
        ensures OldPassword(ps, id) == ps[k].ssh.password
      {
        assert ps[1..][k - 1] == ps[k];
        assert forall j | 0 <= j < k - 1 :: ps[1..][j] == ps[j + 1];
      }
    }
  }

  function SSHFrom(given: SSH, oldPassword: string): SSH {
    SSH(given.host, given.port, given.username, OrElse(given.password, oldPassword), OrElse(given.authType, "password"))
  }

  predicate Acceptable(r: Request) {
    && TrimSpace(r.ssh.host) != "" && 0 < r.ssh.port <= 65535 && TrimSpace(r.ssh.username) != ""
    && NormalizeMode(r.mode).Some?
  }

  function NameOf(r: Request): string {
    OrElse(TrimSpace(r.name), "SSHCustom Profile")
  }

  lemma NameIs(r: Request)
    ensures NameOf(r) == if TrimSpace(r.name) == "" then "SSHCustom Profile" else TrimSpace(r.name)
  {
  }

  // A new profile, and no new identifier for it: all 9999 that are tried are in use, and the clock's is too.
  ghost predicate NoNewID(ps: seq<Profile>, r: Request, unixTime: nat) {
    TrimSpace(r.id) == "" && Slugs.Exhausted(Ids(ps), NameOf(r), unixTime)
  }

  // The profile that a save of r makes.
  ghost predicate MadeFrom(p: Profile, r: Request, ps: seq<Profile>, unixTime: nat) {
    var id := TrimSpace(r.id);
    && p.id != "" && TrimSpace(p.id) == p.id && !p.selected
    && (if id != "" then p.id == id else Has(ps, p.id) <==> NoNewID(ps, r, unixTime))
    && p.name == NameOf(r)
    && p.ssh == SSHFrom(r.ssh, if id == "" then "" else OldPassword(ps, id))
    && NormalizeMode(r.mode).Some?
    && FromRequest(p.transport, NormalizeMode(r.mode).value, r.payload, r.httpProxy, r.tls, p.ssh)
  }

  lemma AcceptableMeans(r: Request)
    ensures Acceptable(r) <==> TrimSpace(r.ssh.host) != "" && 1 <= r.ssh.port <= 65535 && TrimSpace(r.ssh.username) != ""
                               && NormalizeMode(r.mode).Some?
  {
    hide TrimSpace, NormalizeMode;
  }

  lemma FollowsMeans(selectedID: string, ps: seq<Profile>, selectedID': string, ps': seq<Profile>,
                     p: Profile, creatingNew: bool, select: bool)
    requires Follows(selectedID, ps, selectedID', ps', p, creatingNew, select)
    ensures selectedID' == if select || selectedID == "" || selectedID == p.id then p.id else selectedID
  {
    hide Saved, Flagged;
  }

  // Name, server and user are the request's; so is the password, or else that of the first profile under the
  // identifier, which a new profile does not have.
  lemma MadeMeans(p: Profile, r: Request, ps: seq<Profile>, unixTime: nat)
    requires MadeFrom(p, r, ps, unixTime)
    ensures p.name == if TrimSpace(r.name) == "" then "SSHCustom Profile" else TrimSpace(r.name)
    ensures p.ssh.host == r.ssh.host && p.ssh.port == r.ssh.port && p.ssh.username == r.ssh.username
    ensures p.ssh.authType == if r.ssh.authType == "" then "password" else r.ssh.authType
    ensures var id := TrimSpace(r.id);
            && (r.ssh.password != "" ==> p.ssh.password == r.ssh.password)
            && (r.ssh.password == "" && (id == "" || !Has(ps, id)) ==> p.ssh.password == "")
            && (r.ssh.password == "" && id != "" ==>
                  forall k | 0 <= k < |ps| && ps[k].id == id && (forall j | 0 <= j < k :: ps[j].id != id) ::
                    p.ssh.password == ps[k].ssh.password)
  {
    OldPasswordAt(ps, TrimSpace(r.id));
    hide TrimSpace, FromRequest, NormalizeMode, NoNewID, OldPassword;
  }

  // The store after a save of p.
  predicate Follows(selectedID: string, ps: seq<Profile>, selectedID': string, ps': seq<Profile>,
                    p: Profile, creatingNew: bool, select: bool) {
    var r := Saved(ps, p, creatingNew);
    if Selects(select, selectedID, p.id) then selectedID' == p.id && ps' == Flagged(r, p.id)
    else selectedID' == selectedID && ps' == r
  }

  lemma SoundAfter(selectedID: string, ps: seq<Profile>, selectedID': string, ps': seq<Profile>,
                   p: Profile, creatingNew: bool, select: bool)
    requires Follows(selectedID, ps, selectedID', ps', p, creatingNew, select)
    ensures Sound(selectedID', ps') <==> SoundAfterSave(selectedID, Saved(ps, p, creatingNew), p.id, select)
  {
    hide Sound, Saved, Flagged;
  }

  lemma Made(p: Profile, r: Request, ps: seq<Profile>, unixTime: nat)
    requires p.id != "" && TrimSpace(p.id) == p.id && !p.selected && p.name == NameOf(r) && NormalizeMode(r.mode).Some?
    requires TrimSpace(r.id) != "" ==> p.id == TrimSpace(r.id)
    requires TrimSpace(r.id) == "" ==> (Has(ps, p.id) <==> Slugs.Exhausted(Ids(ps), NameOf(r), unixTime))
    requires p.ssh == SSHFrom(r.ssh, if TrimSpace(r.id) == "" then "" else OldPassword(ps, TrimSpace(r.id)))
    requires FromRequest(p.transport, NormalizeMode(r.mode).value, r.payload, r.httpProxy, r.tls, p.ssh)
    ensures MadeFrom(p, r, ps, unixTime)
  {
  }

  lemma MadeConsistent(p: Profile, r: Request, ps: seq<Profile>, unixTime: nat)
    requires Acceptable(r) && MadeFrom(p, r, ps, unixTime)
    ensures Consistent(p.ssh, p.transport) && !p.selected && p.id != "" && TrimSpace(p.id) == p.id
  {
    assert TrimSpace("") == "";
    hide NormalizeMode, OldPassword, TrimSpace, NoNewID, Has;
    RequestsBecomeConsistent(p.transport, NormalizeMode(r.mode).value, r.payload, r.httpProxy, r.tls, p.ssh);
  }

  // A save keeps the store sound if and only if it does not need a new identifier when there is none.
  lemma SavingKeepsSound(selectedID: string, ps: seq<Profile>, r: Request, unixTime: nat, p: Profile)
    requires Sound(selectedID, ps) && Acceptable(r) && MadeFrom(p, r, ps, unixTime)
    ensures SoundAfterSave(selectedID, Saved(ps, p, TrimSpace(r.id) == ""), p.id, r.select) <==> !NoNewID(ps, r, unixTime)
  {
    MadeConsistent(p, r, ps, unixTime);
    PlacingKeepsSound(selectedID, ps, p, TrimSpace(r.id) == "", r.select);
    hide Sound, Acceptable, Consistent, TrimSpace, FromRequest, NormalizeMode, Has, SoundAfterSave, SSHFrom, OldPassword, Saved;
    hide Slugs.Exhausted, NameOf;
  }

  // With fewer than 9999 profiles there always is one.
  lemma RoomForMore(ps: seq<Profile>, r: Request, unixTime: nat)
    requires |ps| < Slugs.TRIES
    ensures !NoNewID(ps, r, unixTime)
  {
    Slugs.SomeCandidateUnused(Ids(ps), Slugs.BaseOf(NameOf(r)));
  }

  const SAMPLE := Profile("", "", false, SSH("localhost", 22, "user", "", "password"),
                          Transport(Direct, [Tcp, Ssh], None, None, Payload(false, "", "", false, [])))

  // Profiles under the first n identifiers that are tried for a base.
  function Crowd(base: string, n: nat): (ps: seq<Profile>)
    ensures |ps| == n && forall i | 0 <= i < n :: ps[i] == SAMPLE.(id := Slugs.Candidate(base, i + 1))
  {
    if n == 0 then [] else Crowd(base, n - 1) + [SAMPLE.(id := Slugs.Candidate(base, n))]
  }

  lemma CandidateIsTrimmed(base: string, i: nat)
    requires base != "" && forall c | c in base :: !IsSpace(c)
    ensures var x := Slugs.Candidate(base, i); x != "" && TrimSpace(x) == x
  {
    Slugs.TrimSlug(Slugs.Candidate(base, i));
  }

  lemma CrowdIsDistinct(base: string, n: nat)
    requires base != "" && forall c | c in base :: !IsSpace(c)
    ensures DistinctIds(Crowd(base, n))
  {
    var ps := Crowd(base, n);
    hide Crowd, Slugs.Candidate, TrimSpace;
    forall i | 0 <= i < n ensures ps[i].id != "" && TrimSpace(ps[i].id) == ps[i].id {
      CandidateIsTrimmed(base, i + 1);
    }
    forall i, j | 0 <= i < j < n ensures ps[i].id != ps[j].id {
      Slugs.CandidatesDiffer(base, i + 1, j + 1);
    }
  }

  lemma CrowdIsSound(base: string, n: nat)
    requires base != "" && forall c | c in base :: !IsSpace(c)
    ensures Sound("", Crowd(base, n))
  {
    var ps := Crowd(base, n);
    CrowdIsDistinct(base, n);
    SampleIsConsistent();
    hide Crowd, Consistent, Has, TrimSpace, Slugs.Candidate;
    assert forall i | 0 <= i < n :: ps[i].ssh == SAMPLE.ssh && ps[i].transport == SAMPLE.transport && !ps[i].selected;
  }

  lemma SampleIsConsistent()
    ensures Consistent(SAMPLE.ssh, SAMPLE.transport)
  {
  }

  lemma HasIffInIds(ps: seq<Profile>, id: string)
    ensures Has(ps, id) <==> id in Ids(ps)
  {
    if i :| 0 <= i < |ps| && ps[i].id == id {
      assert Ids(ps)[i] == id;
    }
  }

  // A sound store of at most 10000 profiles with no identifier for a new one, for every name and at any time.
  lemma CrowdedStore(name: string, unixTime: nat) returns (ps: seq<Profile>)
    ensures Sound("", ps) && Slugs.Exhausted(Ids(ps), name, unixTime) && |ps| <= Slugs.TRIES + 1
  {
    var base := Slugs.BaseOf(name);
    Slugs.BaseIsPlain(name);
    var crowd := Crowd(base, Slugs.TRIES);
    CrowdIsSound(base, Slugs.TRIES);
    hide Sound, Slugs.Candidate, Crowd, Ids, TrimSpace, Slugs.BaseOf;
    var last := base + "-" + Itoa(unixTime);
    Slugs.TrimSlug(last);
    if Has(crowd, last) {
      ps := crowd;
    } else {
      ps := crowd + [SAMPLE.(id := last)];
      AddSample(crowd, last);
    }
    HasIffInIds(ps, last);
    forall i: nat | 1 <= i <= Slugs.TRIES ensures Slugs.Candidate(base, i) in Ids(ps) {
      assert ps[i - 1].id == Slugs.Candidate(base, i) == Ids(ps)[i - 1];
    }
  }

  lemma AddSample(ps: seq<Profile>, id: string)
    requires Sound("", ps) && !Has(ps, id) && id != "" && TrimSpace(id) == id
    ensures Sound("", ps + [SAMPLE.(id := id)]) && Has(ps + [SAMPLE.(id := id)], id)
  {
    var p := SAMPLE.(id := id);
    SavedProfiles(ps, p, true);
    hide TrimSpace, Consistent, AllConsistent;
    assert SelectionAgrees("", ps + [p]) by {
      hide Has;
    }
  }

  // There a save of a new profile does not keep the store sound.
  lemma SavingCanFail(r: Request, unixTime: nat) returns (ps: seq<Profile>)
    requires Acceptable(r) && TrimSpace(r.id) == ""
    ensures Sound("", ps) && NoNewID(ps, r, unixTime)
    ensures forall p | MadeFrom(p, r, ps, unixTime) :: !SoundAfterSave("", Saved(ps, p, true), p.id, r.select)
  {
    ps := CrowdedStore(NameOf(r), unixTime);
    forall p | MadeFrom(p, r, ps, unixTime) ensures !SoundAfterSave("", Saved(ps, p, true), p.id, r.select) {
      SavingKeepsSound("", ps, r, unixTime, p);
    }
  }

  // --- The program -----------------------------------------------------------------------------------------

  class ProfilesFile {
    var selectedID: string
    var profiles: seq<Profile>

    constructor ()
      ensures Sound(selectedID, profiles) && profiles == [] && selectedID == ""
    {
      selectedID, profiles := "", [];
    }

    method IndexOf(id: string) returns (idx: int)
      ensures -1 <= idx < |profiles|
      ensures idx >= 0 ==> profiles[idx].id == id && forall j | 0 <= j < idx :: profiles[j].id != id
      ensures idx < 0 <==> !Has(profiles, id)
    {
      idx := 0;
      while idx < |profiles|
        invariant 0 <= idx <= |profiles|
        invariant forall j | 0 <= j < idx :: profiles[j].id != id
      {
        if profiles[idx].id == id {
          return;
        }
        idx := idx + 1;
      }
      return -1;
    }

    method SelectByID(given: string) returns (ok: bool)
      modifies this
      ensures var id := TrimSpace(given);
              && (ok <==> id != "" && Has(old(profiles), id))
              && profiles == (if id == "" then old(profiles) else Flagged(old(profiles), id))
              && selectedID == (if ok then id else old(selectedID))
      ensures Sound(old(selectedID), old(profiles)) ==>
                (Sound(selectedID, profiles) <==> ok || old(selectedID) == "" || TrimSpace(given) == "")
    {
      var id := TrimSpace(given);
      ghost var was, before := selectedID, profiles;
      if id == "" {
        return false;
      }
      if Sound(was, before) {
        SelectingKeepsSound(was, before, id);
      }
      hide Sound;
      var found := SetFlags(id);
      if !found {
        return false;
      }
      selectedID := id;
      return true;
    }

    // The loop of SelectByID.
    method SetFlags(id: string) returns (found: bool)
      modifies this`profiles
      ensures profiles == Flagged(old(profiles), id)
      ensures found <==> Has(old(profiles), id)
    {
      found := false;
      ghost var before := profiles;
      var i := 0;
      while i < |profiles|
        invariant 0 <= i <= |profiles| == |before|
        invariant forall j | 0 <= j < i :: profiles[j] == before[j].(selected := before[j].id == id)
        invariant forall j | i <= j < |before| :: profiles[j] == before[j]
        invariant found <==> exists j | 0 <= j < i :: before[j].id == id
      {
        var p := profiles[i];
        assert p == before[i];
        profiles := profiles[i := p.(selected := p.id == id)];
        if profiles[i].selected {
          found := true;
        }
        i := i + 1;
      }
      assert profiles == Flagged(before, id);
    }

    method DeleteProfile(id: string) returns (ok: bool)
      modifies this
      ensures ok <==> Has(old(profiles), id)
      ensures !ok ==> profiles == old(profiles) && selectedID == old(selectedID)
      ensures ok ==> selectedID == if old(selectedID) == id then "" else old(selectedID)
      ensures ok ==> exists k | 0 <= k < |old(profiles)| ::
                old(profiles)[k].id == id && profiles == Without(old(profiles), k)
      ensures Sound(old(selectedID), old(profiles)) ==> Sound(selectedID, profiles) && !Has(profiles, id)
    {
      var idx := IndexOf(id);
      if idx < 0 {
        return false;
      }
      if Sound(selectedID, profiles) {
        DeletingKeepsSound(selectedID, profiles, idx);
      }
      hide Sound;
      ghost var before := profiles;
      profiles := profiles[..idx] + profiles[idx + 1..];
      assert before[idx].id == id && profiles == Without(before, idx);
      if selectedID == id {
        selectedID := "";
      }
      return true;
    }

    // The profile to run: the one selected, or else one that is flagged, or else the first.
    method SelectedProfile() returns (p: Option<Profile>)
      ensures p.Some? <==> profiles != []
      ensures p.Some? ==> p.value in profiles
      ensures selectedID != "" && Has(profiles, selectedID) ==> p.Some? && p.value.id == selectedID
      ensures p.Some? && !(selectedID != "" && Has(profiles, selectedID)) ==>
                p.value.selected || (p.value == profiles[0] && forall i | 0 <= i < |profiles| :: !profiles[i].selected)
    {
      if selectedID != "" {
        var i := 0;
        while i < |profiles|
          invariant 0 <= i <= |profiles|
          invariant forall j | 0 <= j < i :: profiles[j].id != selectedID
        {
          if profiles[i].id == selectedID {
            return Some(profiles[i]);
          }
          i := i + 1;
        }
      }
      var k := 0;
      while k < |profiles|
        invariant 0 <= k <= |profiles|
        invariant forall j | 0 <= j < k :: !profiles[j].selected
      {
        if profiles[k].selected {
          return Some(profiles[k]);
        }
        k := k + 1;
      }
      if |profiles| > 0 {
        return Some(profiles[0]);
      }
      return None;
    }

    // The identifier of a new profile.
    method NewID(name: string, unixTime: nat) returns (id: string)
      ensures id != "" && TrimSpace(id) == id
      ensures Has(profiles, id) <==> Slugs.Exhausted(Ids(profiles), name, unixTime)
    {
      id := Slugs.UniqueProfileID(Ids(profiles), Slugs.Slug(name), unixTime);
      Slugs.TrimSlug(id);
      Slugs.SlugsAreTheFixpoints(name);
      HasIffInIds(profiles, id);
      hide Slugs.Slug;
    }

    // The server's settings, with the password of the profile that is replaced if none is given.
    method FillSSH(given: SSH, idx: int, ghost id: string, ghost creatingNew: bool) returns (ssh: SSH)
      requires -1 <= idx < |profiles|
      requires idx >= 0 ==> !creatingNew && profiles[idx].id == id && forall j | 0 <= j < idx :: profiles[j].id != id
      requires idx < 0 ==> creatingNew || !Has(profiles, id)
      ensures ssh == SSHFrom(given, if creatingNew then "" else OldPassword(profiles, id))
    {
      OldPasswordAt(profiles, id);
      ssh := given;
      var oldPassword := "";
      if idx >= 0 {
        oldPassword := profiles[idx].ssh.password;
      }
      if ssh.password == "" {
        ssh := ssh.(password := oldPassword);
      }
      if ssh.authType == "" {
        ssh := ssh.(authType := "password");
      }
    }

    // The profile in its place, and selected if it is to be.
    method Place(profile: Profile, idx: int, creatingNew: bool, select: bool)
      requires -1 <= idx < |profiles| && TrimSpace(profile.id) == profile.id != ""
      requires idx >= 0 ==> !creatingNew && profiles[idx].id == profile.id && forall j | 0 <= j < idx :: profiles[j].id != profile.id
      requires idx < 0 ==> creatingNew || !Has(profiles, profile.id)
      modifies this
      ensures Follows(old(selectedID), old(profiles), selectedID, profiles, profile, creatingNew, select)
    {
      hide TrimSpace;
      if idx >= 0 {
        PutAt(profiles, profile, idx);
        profiles := profiles[idx := profile];
        assert profiles[idx].id == profile.id;
      } else {
        if !creatingNew {
          PutAbsent(profiles, profile);
        }
        profiles := profiles + [profile];
        assert profiles[|profiles| - 1].id == profile.id;
      }
      assert profiles == Saved(old(profiles), profile, creatingNew);
      hide Put, Saved, Flagged;
      assert Has(profiles, profile.id);
      if select || selectedID == "" || selectedID == profile.id {
        var _ := SelectByID(profile.id);
      }
    }

    // The checks of a save.
    method Check(req: Request) returns (mode: Option<Mode>)
      ensures mode == if Acceptable(req) then NormalizeMode(req.mode) else None
      ensures mode.Some? <==> Acceptable(req)
    {
      hide TrimSpace, NormalizeMode;
      if TrimSpace(req.ssh.host) == "" {
        return None;
      }
      if req.ssh.port <= 0 || req.ssh.port > 65535 {
        return None;
      }
      if TrimSpace(req.ssh.username) == "" {
        return None;
      }
      mode := NormalizeMode(req.mode);
    }

    // The profile of a save, and the place of the one that it replaces.
    method Make(req: Request, id: string, name: string, mode: Mode, creatingNew: bool, ghost unixTime: nat)
      returns (profile: Profile, idx: int)
      requires NormalizeMode(req.mode) == Some(mode) && (creatingNew <==> TrimSpace(req.id) == "")
      requires id != "" && TrimSpace(id) == id && name == NameOf(req)
      requires if creatingNew then Has(profiles, id) <==> Slugs.Exhausted(Ids(profiles), name, unixTime) else id == TrimSpace(req.id)
      ensures MadeFrom(profile, req, profiles, unixTime) && profile.id == id
      ensures -1 <= idx < |profiles|
      ensures idx >= 0 ==> !creatingNew && profiles[idx].id == id && forall j | 0 <= j < idx :: profiles[j].id != id
      ensures idx < 0 ==> creatingNew || !Has(profiles, id)
    {
      hide *;
      idx := -1;
      if !creatingNew {
        idx := IndexOf(id);
      }
      var ssh := FillSSH(req.ssh, idx, id, creatingNew);
      var transport := BuildTransport(mode, req.payload, req.httpProxy, req.tls, ssh);
      profile := Profile(id, name, false, ssh, transport);
      Made(profile, req, profiles, unixTime);
    }

    // A save. It is refused, and changes nothing, unless it names a server, a port, a user and a mode. It
    // keeps the store sound if and only if it does not need a new identifier when there is none.
    method Upsert(req: Request, unixTime: nat) returns (ok: bool, ghost made: Option<Profile>)
      modifies this
      ensures ok <==> TrimSpace(req.ssh.host) != "" && 1 <= req.ssh.port <= 65535 && TrimSpace(req.ssh.username) != ""
                      && NormalizeMode(req.mode).Some?
      ensures ok ==>
                && made.Some?
                && var id := made.value.id;
                   selectedID == if req.select || old(selectedID) == "" || old(selectedID) == id then id else old(selectedID)
      ensures !ok ==> profiles == old(profiles) && selectedID == old(selectedID)
      ensures ok ==>
                && made.Some? && MadeFrom(made.value, req, old(profiles), unixTime)
                && Follows(old(selectedID), old(profiles), selectedID, profiles, made.value, TrimSpace(req.id) == "", req.select)
      ensures ok && Sound(old(selectedID), old(profiles)) ==>
                (Sound(selectedID, profiles) <==> !NoNewID(old(profiles), req, unixTime))
    {
      NameIs(req);
      AcceptableMeans(req);
      hide *;
      made := None;
      var id, name := TrimSpace(req.id), TrimSpace(req.name);
      TrimSpaceTrims(req.id);
      if name == "" {
        name := "SSHCustom Profile";
      }
      var creatingNew := id == "";
      if id == "" {
        id := NewID(name, unixTime);
      }
      var mode := Check(req);
      if mode.None? {
        return false, None;
      }
      var profile, idx := Make(req, id, name, mode.value, creatingNew, unixTime);
      if Sound(selectedID, profiles) {
        SavingKeepsSound(selectedID, profiles, req, unixTime, profile);
      }
      ghost var was, before := selectedID, profiles;
      Place(profile, idx, creatingNew, req.select);
      FollowsMeans(was, before, selectedID, profiles, profile, creatingNew, req.select);
      SoundAfter(was, before, selectedID, profiles, profile, creatingNew, req.select);
      return true, Some(profile);
    }
  }
}
