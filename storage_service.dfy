/**
 * Local-first persistence of acts and profiles. Reads prefer the remote
 * table and fall back to the browser's local storage; writes go to local
 * storage first and then attempt a remote upsert whose failure is only
 * logged. The remote store is an oracle: each call's reply is a parameter.
 */
module StorageService {
  import opened Wrappers
  import opened Types

  /**
   * What a local-storage key yields once read and parsed: nothing (no entry
   * or the empty string), the parsed value, or text that does not parse.
   */
  datatype Stored<T> = Blank | Json(value: T) | Garbage

  /** A remote query: rows and no error, no usable data (an error or null data), or an exception. */
  datatype Reply<T> = Data(value: T) | NoData | Threw

  /** A remote upsert: accepted, refused with an error message, or an exception. */
  datatype WriteReply = Written | Refused(message: string) | WriteThrew

  datatype StorageError = CorruptLocalState

  /** A row of the remote `legal_acts` table; it has no fees column, and its evidence may be null. */
  datatype ActRow = ActRow(
    id: string,
    studyId: string,
    title: string,
    actType: string,
    date: string,
    rawTranscription: string,
    legalContent: string,
    status: Status,
    evidence: Option<seq<Evidence>>)

  /** What the storage layer does that can be observed from outside, in order. */
  datatype Event =
    | CacheWrite(key: string)
    | ActUpsert(row: ActRow)
    | ProfileUpsert(studyId: string, profile: UserProfile)
    | ConsoleError(message: string)

  function ActsKey(studyId: string): string { "acts_" + studyId }

  function ProfileKey(studyId: string): string { "profile_" + studyId }

  /** The two key families never collide, and each is one-to-one in the study id. */
  lemma KeysSeparate(a: string, b: string)
    ensures ActsKey(a) != ProfileKey(b)
    ensures ActsKey(a) == ActsKey(b) ==> a == b
    ensures ProfileKey(a) == ProfileKey(b) ==> a == b
  {
    assert ActsKey(a)[0] == 'a' && ProfileKey(b)[0] == 'p';
    if ActsKey(a) == ActsKey(b) {
      assert a == ActsKey(a)[5..] && b == ActsKey(b)[5..];
    }
    if ProfileKey(a) == ProfileKey(b) {
      assert a == ProfileKey(a)[8..] && b == ProfileKey(b)[8..];
    }
  }

  /** The entry under a key, where a missing entry reads as nothing. */
  function Cached<T>(cache: map<string, Stored<T>>, key: string): Stored<T> {
    if key in cache then cache[key] else Blank
  }

  /** A remote row mapped field by field; missing evidence becomes the empty list and no fees are carried. */
  function RowToAct(row: ActRow): (act: LegalAct)
    ensures act.id == row.id && act.title == row.title && act.actType == row.actType && act.date == row.date
    ensures act.rawTranscription == row.rawTranscription && act.legalContent == row.legalContent
    ensures act.status == row.status
    ensures act.evidence == Some(row.evidence.GetOr([]))
    ensures act.fees == None
  {
    LegalAct(row.id, row.title, row.actType, row.date, row.rawTranscription, row.legalContent,
             row.status, Some(row.evidence.GetOr([])), None)
  }

  /** The row a save upserts: the act's fields under its study, without the fees. */
  function ActToRow(studyId: string, act: LegalAct): (row: ActRow)
    ensures row.id == act.id && row.studyId == studyId && row.evidence == act.evidence
  {
    ActRow(act.id, studyId, act.title, act.actType, act.date, act.rawTranscription, act.legalContent,
           act.status, act.evidence)
  }

  /** Writing an act remotely and reading it back loses its fees and nothing else. */
  lemma RemoteRoundTrip(studyId: string, act: LegalAct)
    ensures RowToAct(ActToRow(studyId, act)) == act.(evidence := Some(act.evidence.GetOr([])), fees := None)
  {
  }

  function RowsToActs(rows: seq<ActRow>): (acts: seq<LegalAct>)
    ensures |acts| == |rows| && forall i :: 0 <= i < |rows| ==> acts[i] == RowToAct(rows[i])
  {
    seq(|rows|, i requires 0 <= i < |rows| => RowToAct(rows[i]))
  }

  /**
   * The list `getActs` returns: the remote rows whenever the query yields
   * data, otherwise the cached list, the empty list when nothing is cached,
   * and a failure when the cached text does not parse.
   */
  function ActsRead(remote: Reply<seq<ActRow>>, local: Stored<seq<LegalAct>>): (r: Result<seq<LegalAct>, StorageError>)
    ensures r.Err? <==> !remote.Data? && local.Garbage?
    ensures remote.Data? ==> r == Ok(RowsToActs(remote.value))
    ensures !remote.Data? && local.Json? ==> r == Ok(local.value)
    ensures !remote.Data? && local.Blank? ==> r == Ok([])
  {
    match remote
    case Data(rows) => Ok(RowsToActs(rows))
    case _ =>
      match local
      case Blank => Ok([])
      case Json(acts) => Ok(acts)
      case Garbage => Err(CorruptLocalState)
  }

  /** When the remote answers, the local cache is not consulted at all, corrupt or not. */
  lemma RemoteDataIgnoresCache(rows: seq<ActRow>, a: Stored<seq<LegalAct>>, b: Stored<seq<LegalAct>>)
    ensures ActsRead(Data(rows), a) == ActsRead(Data(rows), b)
    ensures ActsRead(Data(rows), a).Ok? && forall x :: x in ActsRead(Data(rows), a).value ==> x.fees.None?
  {
  }

  /** Offline, an empty cache reads as the empty list, which is not the same outcome as a corrupt one. */
  lemma OfflineEmptyIsNotCorrupt(remote: Reply<seq<ActRow>>)
    requires !remote.Data?
    ensures ActsRead(remote, Blank) == Ok([])
    ensures ActsRead(remote, Garbage) == Err(CorruptLocalState)
  {
  }

  /** The index of the first act with the given id, or -1 (`findIndex`). */
  function IndexOfId(acts: seq<LegalAct>, id: string): (r: int)
    ensures -1 <= r < |acts|
    ensures r >= 0 ==> acts[r].id == id && forall k :: 0 <= k < r ==> acts[k].id != id
    ensures r < 0 ==> forall k :: 0 <= k < |acts| ==> acts[k].id != id
  {
    if acts == [] then -1
    else if acts[0].id == id then 0
    else
      var r := IndexOfId(acts[1..], id);
      if r < 0 then -1 else r + 1
  }

  /** `findIndex` as a loop: the first position holding the id, or -1 when no act has it. */
  method FindIndex(acts: seq<LegalAct>, id: string) returns (index: int)
    ensures -1 <= index < |acts|
    ensures index >= 0 ==> acts[index].id == id && forall k :: 0 <= k < index ==> acts[k].id != id
    ensures index < 0 ==> forall k :: 0 <= k < |acts| ==> acts[k].id != id
  {
    var i := 0;
    while i < |acts|
      invariant 0 <= i <= |acts|
      invariant forall k :: 0 <= k < i ==> acts[k].id != id
    {
      if acts[i].id == id {
        return i;
      }
      i := i + 1;
    }
    return -1;
  }

  /** Replace the first act with the same id in place, or append at the end when there is none. */
  function Upsert(acts: seq<LegalAct>, act: LegalAct): (r: seq<LegalAct>)
    ensures act in r
    ensures IndexOfId(acts, act.id) >= 0 ==> |r| == |acts|
    ensures IndexOfId(acts, act.id) < 0 ==> |r| == |acts| + 1
  {
    var i := IndexOfId(acts, act.id);
    if i >= 0 then
      var r := acts[i := act];
      assert r[i] == act;
      r
    else
      var r := acts + [act];
      assert r[|acts|] == act;
      r
  }

  /** An id already present: its first entry is replaced where it stands, everything else is untouched. */
  lemma UpsertExisting(acts: seq<LegalAct>, act: LegalAct)
    requires IndexOfId(acts, act.id) >= 0
    ensures var i := IndexOfId(acts, act.id);
      var r := Upsert(acts, act);
      |r| == |acts| && r[i] == act && forall k :: 0 <= k < |acts| && k != i ==> r[k] == acts[k]
  {
  }

  /** A new id: the act is appended at the end, after the unchanged list. */
  lemma UpsertNew(acts: seq<LegalAct>, act: LegalAct)
    requires forall k :: 0 <= k < |acts| ==> acts[k].id != act.id
    ensures Upsert(acts, act) == acts + [act]
  {
  }

  /** After an upsert the act is the first entry with its id: a later read by id finds this version. */
  predicate Listed(acts: seq<LegalAct>, act: LegalAct) {
    var i := IndexOfId(acts, act.id);
    i >= 0 && acts[i] == act
  }

  lemma UpsertListsAct(acts: seq<LegalAct>, act: LegalAct)
    ensures Listed(Upsert(acts, act), act)
  {
    var i := IndexOfId(acts, act.id);
    var r := Upsert(acts, act);
    var j := IndexOfId(r, act.id);
    if i >= 0 {
      assert r[i].id == act.id;
      assert forall k :: 0 <= k < i ==> r[k] == acts[k];
      assert j == i;
    } else {
      assert r[|acts|].id == act.id;
      assert forall k :: 0 <= k < |acts| ==> r[k] == acts[k];
      assert j == |acts|;
    }
  }

  /** Upserting the same act twice gives the same list as upserting it once. */
  lemma UpsertIdempotent(acts: seq<LegalAct>, act: LegalAct)
    ensures Upsert(Upsert(acts, act), act) == Upsert(acts, act)
  {
    var r := Upsert(acts, act);
    UpsertListsAct(acts, act);
    assert r[IndexOfId(r, act.id) := act] == r;
  }

  /**
   * Save then list with the remote unavailable: the list read back is the one
   * the save wrote, and it holds the saved version of the act.
   */
  lemma ListAfterSaveOffline(studyId: string, cache: map<string, Stored<seq<LegalAct>>>, act: LegalAct,
                             read: Reply<seq<ActRow>>, remote: Reply<seq<ActRow>>)
    requires ActsRead(read, Cached(cache, ActsKey(studyId))).Ok?
    requires !remote.Data?
    ensures var saved := Upsert(ActsRead(read, Cached(cache, ActsKey(studyId))).value, act);
      && ActsRead(remote, Cached(cache[ActsKey(studyId) := Json(saved)], ActsKey(studyId))) == Ok(saved)
      && Listed(saved, act)
  {
    UpsertListsAct(ActsRead(read, Cached(cache, ActsKey(studyId))).value, act);
  }

  /**
   * When the save's own read was answered by the remote, the list it caches
   * is made of remote rows: every act in it other than the saved one has lost its fees.
   */
  lemma SaveOverRemoteRowsDropsFees(rows: seq<ActRow>, local: Stored<seq<LegalAct>>, act: LegalAct)
    ensures var saved := Upsert(ActsRead(Data(rows), local).value, act);
      forall x :: x in saved && x != act ==> x.fees.None?
  {
    var existing := ActsRead(Data(rows), local).value;
    var saved := Upsert(existing, act);
    forall x | x in saved && x != act
      ensures x.fees.None?
    {
      var i := IndexOfId(existing, act.id);
      var k :| 0 <= k < |saved| && saved[k] == x;
      if i < 0 {
        assert k < |existing| && existing[k] == x;
      } else {
        assert k != i && existing[k] == x;
      }
    }
  }

  /**
   * The save reads the list through `getActs`, so once the remote answers
   * again its rows replace the cached list: an act saved while the remote
   * was down, whose upsert failed, is then gone from both stores.
   */
  lemma RemoteRowsDropOfflineSave(studyId: string, cache: map<string, Stored<seq<LegalAct>>>, a: LegalAct, b: LegalAct,
                                  offline: Reply<seq<ActRow>>, rows: seq<ActRow>)
    requires !offline.Data? && !Cached(cache, ActsKey(studyId)).Garbage?
    requires a.id != b.id && forall i :: 0 <= i < |rows| ==> rows[i].id != a.id
    ensures var first := Upsert(ActsRead(offline, Cached(cache, ActsKey(studyId))).value, a);
      var cache1 := cache[ActsKey(studyId) := Json(first)];
      var second := Upsert(ActsRead(Data(rows), Cached(cache1, ActsKey(studyId))).value, b);
      && Listed(first, a)
      && forall x :: x in second ==> x.id != a.id
  {
    var first := Upsert(ActsRead(offline, Cached(cache, ActsKey(studyId))).value, a);
    UpsertListsAct(ActsRead(offline, Cached(cache, ActsKey(studyId))).value, a);
    var remoteActs := RowsToActs(rows);
    assert forall k :: 0 <= k < |remoteActs| ==> remoteActs[k].id != b.id || remoteActs[k].id != a.id;
    var second := Upsert(remoteActs, b);
    forall x | x in second
      ensures x.id != a.id
    {
      var k :| 0 <= k < |second| && second[k] == x;
      if k < |remoteActs| && second[k] == remoteActs[k] {
        assert remoteActs[k].id == rows[k].id;
      }
    }
  }

  /**
   * The save as the local-first design describes it: replace or append in
   * the cached list itself, whatever the remote holds; a corrupt cache fails.
   */
  function CachedSaveList(local: Stored<seq<LegalAct>>, act: LegalAct): (r: Result<seq<LegalAct>, StorageError>)
    ensures r.Ok? <==> !local.Garbage?
    ensures r.Ok? ==> Listed(r.value, act)
    ensures local.Json? ==> forall x :: x in local.value && x.id != act.id ==> x in r.value
  {
    match local
    case Garbage => Err(CorruptLocalState)
    case Blank =>
      UpsertListsAct([], act);
      Ok(Upsert([], act))
    case Json(acts) =>
      UpsertListsAct(acts, act);
      UpsertKeepsOthers(acts, act);
      Ok(Upsert(acts, act))
  }

  /** An upsert keeps every entry whose id differs from the saved act's. */
  lemma UpsertKeepsOthers(acts: seq<LegalAct>, act: LegalAct)
    ensures forall x :: x in acts && x.id != act.id ==> x in Upsert(acts, act)
  {
    var r := Upsert(acts, act);
    var i := IndexOfId(acts, act.id);
    forall x | x in acts && x.id != act.id
      ensures x in r
    {
      var k :| 0 <= k < |acts| && acts[k] == x;
      if i >= 0 {
        assert k != i && r[k] == x;
      } else {
        assert r[k] == x;
      }
    }
  }

  /** With saves that start from the cache, the act saved first is still listed after a second save of another act. */
  lemma CachedSavesKeepEarlierSave(local: Stored<seq<LegalAct>>, a: LegalAct, b: LegalAct)
    requires !local.Garbage? && a.id != b.id
    ensures var first := CachedSaveList(local, a).value;
      Listed(CachedSaveList(Json(first), b).value, a)
  {
    var first := CachedSaveList(local, a).value;
    UpsertKeepsListed(first, a, b);
  }

  /** An upsert of another id leaves an act listed. */
  lemma UpsertKeepsListed(acts: seq<LegalAct>, a: LegalAct, b: LegalAct)
    requires Listed(acts, a) && a.id != b.id
    ensures Listed(Upsert(acts, b), a)
  {
    var r := Upsert(acts, b);
    var j := IndexOfId(acts, a.id);
    var i := IndexOfId(acts, b.id);
    if i >= 0 {
      assert forall k :: 0 <= k < |acts| && k != i ==> r[k] == acts[k];
      assert r[i].id != a.id;
      assert IndexOfId(r, a.id) == j;
    } else {
      assert forall k :: 0 <= k < |acts| ==> r[k] == acts[k];
      assert IndexOfId(r, a.id) == j;
    }
  }

  /** The list cached after saving `saves` in order with the remote down, starting from `acts`. */
  function SavedOffline(acts: seq<LegalAct>, saves: seq<LegalAct>): seq<LegalAct>
    decreases |saves|
  {
    if saves == [] then acts else SavedOffline(Upsert(acts, saves[0]), saves[1..])
  }

  /** Later saves of other ids keep an act listed. */
  lemma {:induction false} SavesKeepListed(acts: seq<LegalAct>, a: LegalAct, saves: seq<LegalAct>)
    requires Listed(acts, a) && forall j :: 0 <= j < |saves| ==> saves[j].id != a.id
    ensures Listed(SavedOffline(acts, saves), a)
    decreases |saves|
  {
    if saves != [] {
      UpsertKeepsListed(acts, a, saves[0]);
      SavesKeepListed(Upsert(acts, saves[0]), a, saves[1..]);
    }
  }

  /** No later save in the sequence has the id of the save at `k`. */
  predicate LastOfId(saves: seq<LegalAct>, k: nat) {
    k < |saves| && forall j :: k < j < |saves| ==> saves[j].id != saves[k].id
  }

  /**
   * After any sequence of saves with the remote down, every saved act is
   * listed at its latest version: the last save of each id wins.
   */
  lemma SavesOfflineListLatest(acts: seq<LegalAct>, saves: seq<LegalAct>)
    ensures forall k: nat :: LastOfId(saves, k) ==> Listed(SavedOffline(acts, saves), saves[k])
  {
    forall k: nat | LastOfId(saves, k)
      ensures Listed(SavedOffline(acts, saves), saves[k])
    {
      LatestListed(acts, saves, k);
    }
  }

  lemma {:induction false} LatestListed(acts: seq<LegalAct>, saves: seq<LegalAct>, k: nat)
    requires LastOfId(saves, k)
    ensures Listed(SavedOffline(acts, saves), saves[k])
    decreases k
  {
    var rest := saves[1..];
    assert SavedOffline(acts, saves) == SavedOffline(Upsert(acts, saves[0]), rest);
    if k == 0 {
      UpsertListsAct(acts, saves[0]);
      assert forall j :: 0 <= j < |rest| ==> rest[j] == saves[j + 1];
      SavesKeepListed(Upsert(acts, saves[0]), saves[0], rest);
    } else {
      assert rest[k - 1] == saves[k];
      assert forall j :: k - 1 < j < |rest| ==> rest[j] == saves[j + 1];
      LatestListed(Upsert(acts, saves[0]), rest, k - 1);
    }
  }

  /** Offline, each save turns the cached list `l` into `Upsert(l, act)`: the chain above is what the cache holds. */
  lemma OfflineSaveStep(studyId: string, cache: map<string, Stored<seq<LegalAct>>>, l: seq<LegalAct>, act: LegalAct,
                        remote: Reply<seq<ActRow>>)
    requires !remote.Data? && Cached(cache, ActsKey(studyId)) == Json(l)
    ensures ActsRead(remote, Cached(cache, ActsKey(studyId))) == Ok(l)
    ensures var after := cache[ActsKey(studyId) := Json(Upsert(l, act))];
      ActsRead(remote, Cached(after, ActsKey(studyId))) == Ok(SavedOffline(l, [act]))
  {
    assert SavedOffline(l, [act]) == SavedOffline(Upsert(l, act), []);
  }

  /** The profile `getProfile` returns: the remote one when it answers, else the cached one, else null. */
  function ProfileRead(remote: Reply<UserProfile>, local: Stored<UserProfile>): (r: Result<Option<UserProfile>, StorageError>)
    ensures r.Err? <==> !remote.Data? && local.Garbage?
    ensures r == Ok(None) <==> !remote.Data? && local.Blank?
    ensures remote.Data? ==> r == Ok(Some(remote.value))
    ensures !remote.Data? && local.Json? ==> r == Ok(Some(local.value))
  {
    match remote
    case Data(p) => Ok(Some(p))
    case _ =>
      match local
      case Blank => Ok(None)
      case Json(p) => Ok(Some(p))
      case Garbage => Err(CorruptLocalState)
  }

  /** The events a remote upsert leaves behind: nothing when it is accepted, one console error otherwise. */
  function UpsertLog(what: string, reply: WriteReply): (events: seq<Event>)
    ensures |events| == if reply.Written? then 0 else 1
  {
    match reply
    case Written => []
    case Refused(message) => [ConsoleError("Supabase " + what + " error: " + message)]
    case WriteThrew => [ConsoleError("Supabase " + what + " exception")]
  }

  /** The events a remote query leaves behind: only an exception is logged. */
  function QueryLog(what: string, reply: Reply): (events: seq<Event>)
    ensures |events| == if reply.Threw? then 1 else 0
  {
    if reply.Threw? then [ConsoleError("Supabase " + what + " exception")] else []
  }

  /** The browser's local storage for this origin, and the trace of what the layer did. */
  class Storage {
    var actsCache: map<string, Stored<seq<LegalAct>>>
    var profileCache: map<string, Stored<UserProfile>>
    var trace: seq<Event>

    constructor (actsCache: map<string, Stored<seq<LegalAct>>>, profileCache: map<string, Stored<UserProfile>>)
      ensures this.actsCache == actsCache && this.profileCache == profileCache && trace == []
    {
      this.actsCache := actsCache;
      this.profileCache := profileCache;
      trace := [];
    }

    method GetActs(studyId: string, remote: Reply<seq<ActRow>>) returns (r: Result<seq<LegalAct>, StorageError>)
      modifies this`trace
      ensures r == ActsRead(remote, Cached(actsCache, ActsKey(studyId)))
      ensures trace == old(trace) + QueryLog("getActs", remote)
    {
      if remote.Data? {
        return Ok(RowsToActs(remote.value));
      }
      trace := trace + QueryLog("getActs", remote);
      var local := Cached(actsCache, ActsKey(studyId));
      match local {
        case Blank => r := Ok([]);
        case Json(acts) => r := Ok(acts);
        case Garbage => r := Err(CorruptLocalState);
      }
    }

    /**
     * Read the current list (which fails only on a corrupt cache, and then
     * nothing is written), replace or append the act in it, overwrite the
     * study's cache entry, then attempt the remote upsert and log its failure.
     */
    method SaveAct(studyId: string, act: LegalAct, read: Reply<seq<ActRow>>, write: WriteReply)
      returns (r: Result<(), StorageError>)
      modifies this`actsCache, this`trace
      ensures var existing := ActsRead(read, Cached(old(actsCache), ActsKey(studyId)));
        && (existing.Err? ==> r == Err(CorruptLocalState) && actsCache == old(actsCache)
                              && trace == old(trace) + QueryLog("getActs", read))
        && (existing.Ok? ==> r == Ok(())
                             && actsCache == old(actsCache)[ActsKey(studyId) := Json(Upsert(existing.value, act))]
                             && trace == old(trace) + QueryLog("getActs", read)
                                         + [CacheWrite(ActsKey(studyId)), ActUpsert(ActToRow(studyId, act))]
                                         + UpsertLog("saveAct", write))
    {
      var current := GetActs(studyId, read);
      if current.Err? {
        return Err(current.error);
      }
      var existing := current.value;
      var index := FindIndex(existing, act.id);
      assert index == IndexOfId(existing, act.id);
      if index >= 0 {
        existing := existing[index := act];
      } else {
        existing := existing + [act];
      }
      actsCache := actsCache[ActsKey(studyId) := Json(existing)];
      trace := trace + [CacheWrite(ActsKey(studyId))];
      trace := trace + [ActUpsert(ActToRow(studyId, act))] + UpsertLog("saveAct", write);
      r := Ok(());
    }

    method GetProfile(studyId: string, remote: Reply<UserProfile>) returns (r: Result<Option<UserProfile>, StorageError>)
      modifies this`trace
      ensures r == ProfileRead(remote, Cached(profileCache, ProfileKey(studyId)))
      ensures trace == old(trace) + QueryLog("getProfile", remote)
    {
      if remote.Data? {
        return Ok(Some(remote.value));
      }
      trace := trace + QueryLog("getProfile", remote);
      match Cached(profileCache, ProfileKey(studyId)) {
        case Blank => r := Ok(None);
        case Json(p) => r := Ok(Some(p));
        case Garbage => r := Err(CorruptLocalState);
      }
    }

    /** Write the profile locally first, then attempt the remote upsert and log its failure. */
    method SaveProfile(studyId: string, profile: UserProfile, write: WriteReply)
      modifies this`profileCache, this`trace
      ensures profileCache == old(profileCache)[ProfileKey(studyId) := Json(profile)]
      ensures trace == old(trace) + [CacheWrite(ProfileKey(studyId)), ProfileUpsert(studyId, profile)]
                      + UpsertLog("saveProfile", write)
    {
      profileCache := profileCache[ProfileKey(studyId) := Json(profile)];
      trace := trace + [CacheWrite(ProfileKey(studyId)), ProfileUpsert(studyId, profile)] + UpsertLog("saveProfile", write);
    }
  }

  /** After a profile save, an offline read returns the saved profile. */
  lemma ProfileAfterSaveOffline(studyId: string, cache: map<string, Stored<UserProfile>>, profile: UserProfile,
                                remote: Reply<UserProfile>)
    requires !remote.Data?
    ensures ProfileRead(remote, Cached(cache[ProfileKey(studyId) := Json(profile)], ProfileKey(studyId))) == Ok(Some(profile))
  {
  }
}
