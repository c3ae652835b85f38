/**
 * The tag-list panel of the registry console: the list of a repository's tags,
 * the set of tags whose vulnerability scan is in flight, the poll that
 * re-synchronises that set, tag deletion through a confirmation dialog, scan
 * submission and the copy-the-digest dialog.
 *
 * Every asynchronous service call is split in two: the method that issues it
 * appends a `Request` to `requests`, and a `...Resolved` method is the promise's
 * callback, taking how the call settled as a parameter.
 */
module TagPanel {
  import opened Wrappers
  import opened TagTypes

  const ProjectIdUnsetError := "Project ID cannot be unset."
  const RepoNameUnsetError := "Repo name cannot be unset."
  const DeletedTagSuccessKey := "REPOSITORY.DELETED_TAG_SUCCESS"
  const CopyDigestIdTitle := "REPOSITORY.COPY_DIGEST_ID"
  const DeniedTitleKey := "REPOSITORY.DELETION_TITLE_TAG_DENIED"
  const DeniedSummaryKey := "REPOSITORY.DELETION_SUMMARY_TAG_DENIED"
  const DeleteTitleKey := "REPOSITORY.DELETION_TITLE_TAG"
  const DeleteSummaryKey := "REPOSITORY.DELETION_SUMMARY_TAG"

  /** JavaScript truthiness of a string. */
  predicate Truthy(s: string) { s != "" }

  /** A tag counts as being scanned when it has a scan overview whose status is pending or running. */
  predicate InFlight(t: Tag) {
    t.scanOverview.Some? &&
    (t.scanOverview.value.scanStatus == Pending || t.scanOverview.value.scanStatus == Running)
  }

  /** The names of the fetched tags that are being scanned. */
  function ScanningNames(items: seq<Tag>): set<string> {
    set i | 0 <= i < |items| && InFlight(items[i]) :: items[i].name
  }

  /** How many of the fetched tags are being scanned, duplicates included. */
  function InFlightCount(items: seq<Tag>): (n: nat)
    ensures n <= |items|
  {
    if items == [] then 0
    else InFlightCount(items[..|items| - 1]) + (if InFlight(items[|items| - 1]) then 1 else 0)
  }

  /** The positions of the fetched list that hold a tag being scanned. */
  function InFlightPositions(items: seq<Tag>): set<int> {
    set i | 0 <= i < |items| && InFlight(items[i])
  }

  /** The counter the loop builds is the number of positions holding an in-flight tag. */
  lemma {:induction false} InFlightCountIsPositionCount(items: seq<Tag>)
    ensures InFlightCount(items) == |InFlightPositions(items)|
  {
    if items == [] {
      assert InFlightPositions(items) == {};
    } else {
      var n := |items|;
      var p := items[..n - 1];
      InFlightCountIsPositionCount(p);
      var extra: set<int> := if InFlight(items[n - 1]) then {n - 1} else {};
      forall i | i in InFlightPositions(items) ensures i in InFlightPositions(p) + extra {
        if i < n - 1 {
          assert p[i] == items[i];
        }
      }
      forall i | i in InFlightPositions(p) + extra ensures i in InFlightPositions(items) {
        if i < n - 1 {
          assert p[i] == items[i];
        }
      }
      assert InFlightPositions(items) == InFlightPositions(p) + extra;
      assert InFlightPositions(p) !! extra;
    }
  }

  /** No two in-flight tags of the list share a name. */
  predicate DistinctInFlightNames(items: seq<Tag>) {
    forall i, j :: 0 <= i < j < |items| && InFlight(items[i]) && InFlight(items[j]) ==>
      items[i].name != items[j].name
  }

  /** `tagsInScanning[tagId]` is truthy: the key is present and its value non-empty. */
  predicate AlreadyScanning(m: map<string, string>, tagId: string) {
    tagId in m && Truthy(m[tagId])
  }

  /** The map holds each key as its own value and the counter is its size. */
  predicate ScanBookkeepingConsistent(m: map<string, string>, count: nat) {
    count == |m| && forall k :: k in m ==> m[k] == k
  }

  /**
   * On consistent bookkeeping, the guard of `scanTag` lets a tag id through only
   * when it is not yet marked, or when it is the empty id, which is marked with a
   * falsy value and so passes again.
   */
  lemma GuardAdmitsFreshOrEmpty(m: map<string, string>, count: nat, tagId: string)
    requires ScanBookkeepingConsistent(m, count)
    ensures !AlreadyScanning(m, tagId) <==> tagId !in m || tagId == ""
  {
    if tagId in m {
      assert m[tagId] == tagId;
    }
  }

  /** The notary command that removes the trust data of a signed tag. */
  function NotaryRemoveCommand(registryUrl: string, repoName: string, name: string): string {
    "notary -s https://" + registryUrl + ":4443 -d ~/.docker/trust remove -p "
      + registryUrl + "/" + repoName + " " + name
  }

  /**
   * The dialog message `deleteTag` opens: for a signed tag an informational
   * dialog with only a close button and the notary command to run, otherwise a
   * delete/cancel dialog naming the tag. Either way the tag is the payload.
   */
  function DeletionMessage(tag: Tag, registryUrl: string, repoName: string): (m: ConfirmationMessage)
    ensures m.data == tag && m.target == TagTarget
    ensures m.buttons == Close <==> tag.signed
    ensures m.buttons == DeleteCancel <==> !tag.signed
    ensures tag.signed ==> m.titleKey == DeniedTitleKey && m.summaryKey == DeniedSummaryKey
                           && m.content == NotaryRemoveCommand(registryUrl, repoName, tag.name)
    ensures !tag.signed ==> m.titleKey == DeleteTitleKey && m.summaryKey == DeleteSummaryKey
                            && m.content == tag.name
  {
    if tag.signed then
      ConfirmationMessage(DeniedTitleKey, DeniedSummaryKey,
        NotaryRemoveCommand(registryUrl, repoName, tag.name), tag, TagTarget, Close)
    else
      ConfirmationMessage(DeleteTitleKey, DeleteSummaryKey, tag.name, tag, TagTarget, DeleteCancel)
  }

  /** The gates of `confirmDeletion`: a present acknowledgement from this panel, confirmed, carrying an unsigned tag. */
  predicate TriggersDeletion(ack: Option<ConfirmationAcknowledgement>) {
    && ack.Some?
    && ack.value.source == TagTarget
    && ack.value.state == Confirmed
    && ack.value.data.Some?
    && !ack.value.data.value.signed
  }

  /** Adding one element at the end of the list adds its name to the scanning names exactly when it is in flight. */
  lemma ScanningNamesSnoc(items: seq<Tag>)
    requires |items| > 0
    ensures ScanningNames(items) ==
            ScanningNames(items[..|items| - 1])
            + (if InFlight(items[|items| - 1]) then {items[|items| - 1].name} else {})
  {
    var n := |items|;
    var p := items[..n - 1];
    var t := items[n - 1];
    var extra: set<string> := if InFlight(t) then {t.name} else {};
    forall x | x in ScanningNames(items) ensures x in ScanningNames(p) + extra {
      var i :| 0 <= i < n && InFlight(items[i]) && items[i].name == x;
      if i < n - 1 {
        assert p[i] == items[i];
      }
    }
    forall x | x in ScanningNames(p) + extra ensures x in ScanningNames(items) {
      if x in ScanningNames(p) {
        var i :| 0 <= i < n - 1 && InFlight(p[i]) && p[i].name == x;
        assert items[i] == p[i];
      } else {
        assert items[n - 1] == t;
      }
    }
  }

  /** A list is free of repeated in-flight names exactly when its prefix is and its last element repeats none. */
  lemma DistinctInFlightNamesSnoc(items: seq<Tag>)
    requires |items| > 0
    ensures DistinctInFlightNames(items) <==>
            DistinctInFlightNames(items[..|items| - 1])
            && (InFlight(items[|items| - 1]) ==> items[|items| - 1].name !in ScanningNames(items[..|items| - 1]))
  {
    var n := |items|;
    var p := items[..n - 1];
    var t := items[n - 1];
    if DistinctInFlightNames(items) {
      forall i, j | 0 <= i < j < |p| && InFlight(p[i]) && InFlight(p[j])
        ensures p[i].name != p[j].name
      {
        assert p[i] == items[i] && p[j] == items[j];
      }
      forall i | 0 <= i < n - 1 && InFlight(p[i]) && InFlight(t) ensures p[i].name != t.name {
        assert p[i] == items[i];
      }
    }
    if DistinctInFlightNames(p) && (InFlight(t) ==> t.name !in ScanningNames(p)) {
      forall i, j | 0 <= i < j < n && InFlight(items[i]) && InFlight(items[j])
        ensures items[i].name != items[j].name
      {
        assert items[i] == p[i];
        if j < n - 1 {
          assert items[j] == p[j];
        } else {
          assert items[i].name in ScanningNames(p);
        }
      }
    }
  }

  /**
   * The scan counter never falls below the number of distinct scanning names,
   * and equals it exactly when no two in-flight tags share a name.
   */
  lemma {:induction false} InFlightCountVersusNames(items: seq<Tag>)
    ensures InFlightCount(items) >= |ScanningNames(items)|
    ensures InFlightCount(items) == |ScanningNames(items)| <==> DistinctInFlightNames(items)
  {
    if items == [] {
      assert ScanningNames(items) == {};
    } else {
      var p := items[..|items| - 1];
      InFlightCountVersusNames(p);
      ScanningNamesSnoc(items);
      DistinctInFlightNamesSnoc(items);
    }
  }

  /** One step of the reconciliation loop keeps the map and the counter in step with the prefix processed so far. */
  lemma ReconcileStep(m: map<string, string>, count: nat, items: seq<Tag>, i: nat)
    requires i < |items|
    requires m.Keys == ScanningNames(items[..i]) && (forall k :: k in m ==> m[k] == k)
    requires count == InFlightCount(items[..i])
    ensures var t := items[i];
            var m' := if InFlight(t) then m[t.name := t.name] else m;
            var count' := if InFlight(t) then count + 1 else count;
            m'.Keys == ScanningNames(items[..i + 1]) && (forall k :: k in m' ==> m'[k] == k)
            && count' == InFlightCount(items[..i + 1])
  {
    assert items[..i + 1][..i] == items[..i];
    ScanningNamesSnoc(items[..i + 1]);
  }

  /** Once the dialog `deleteTag` opened is confirmed, a delete follows exactly when the tag is unsigned. */
  lemma ConfirmedDeletionDialog(tag: Tag, registryUrl: string, repoName: string)
    ensures var m := DeletionMessage(tag, registryUrl, repoName);
            TriggersDeletion(Some(ConfirmationAcknowledgement(Confirmed, Some(m.data), m.target))) <==> !tag.signed
  {
  }

  class TagComponent {
    // Inputs bound by the container.
    const projectId: int
    const repoName: string
    const registryUrl: string

    var tags: seq<Tag>
    var loading: bool
    var tagsInScanning: map<string, string>
    var scanningTagCount: nat
    var digestId: Option<string>
    var manifestInfoTitle: string
    var showTagManifestOpened: bool
    var copyFailed: bool
    /** The state-check timer has been subscribed. */
    var stateCheckTimerStarted: bool

    /** Service calls issued, oldest first. */
    var requests: seq<Request>
    /** Events emitted to the container, the error handler and the dialog, oldest first. */
    var events: seq<Event>

    ghost predicate ScanStateConsistent()
      reads this
    {
      ScanBookkeepingConsistent(tagsInScanning, scanningTagCount)
    }

    constructor (projectId: int, repoName: string, registryUrl: string)
      ensures this.projectId == projectId && this.repoName == repoName && this.registryUrl == registryUrl
      ensures tags == [] && !loading && tagsInScanning == map[] && scanningTagCount == 0
      ensures digestId == None && manifestInfoTitle == "" && !showTagManifestOpened && !copyFailed
      ensures !stateCheckTimerStarted && requests == [] && events == []
      ensures ScanStateConsistent()
    {
      this.projectId := projectId;
      this.repoName := repoName;
      this.registryUrl := registryUrl;
      tags := [];
      loading := false;
      tagsInScanning := map[];
      scanningTagCount := 0;
      digestId := None;
      manifestInfoTitle := "";
      showTagManifestOpened := false;
      copyFailed := false;
      stateCheckTimerStarted := false;
      requests := [];
      events := [];
    }

    /** `ngOnInit`: check the inputs, then load the tags and start the state-check timer. */
    method OnInit()
      modifies this`tags, this`loading, this`requests, this`events, this`stateCheckTimerStarted
      ensures projectId == 0 ==>
        events == old(events) + [ErrorReported(ProjectIdUnsetError)]
        && tags == old(tags) && loading == old(loading) && requests == old(requests)
        && stateCheckTimerStarted == old(stateCheckTimerStarted)
      ensures projectId != 0 && !Truthy(repoName) ==>
        events == old(events) + [ErrorReported(RepoNameUnsetError)]
        && tags == old(tags) && loading == old(loading) && requests == old(requests)
        && stateCheckTimerStarted == old(stateCheckTimerStarted)
      ensures projectId != 0 && Truthy(repoName) ==>
        events == old(events)
        && tags == [] && loading && requests == old(requests) + [GetTagsCall(repoName)]
        && stateCheckTimerStarted
    {
      if projectId == 0 {
        events := events + [ErrorReported(ProjectIdUnsetError)];
        return;
      }
      if !Truthy(repoName) {
        events := events + [ErrorReported(RepoNameUnsetError)];
        return;
      }
      Retrieve();
      stateCheckTimerStarted := true;
    }

    /**
     * One tick of the state-check timer, which fires every 2000 ms: re-fetch the
     * tags only while some scan is in flight.
     */
    method Tick()
      requires stateCheckTimerStarted
      modifies this`requests
      ensures scanningTagCount > 0 ==> requests == old(requests) + [GetTagsCall(repoName)]
      ensures scanningTagCount == 0 ==> requests == old(requests)
    {
      if scanningTagCount > 0 {
        UpdateScanningStates();
      }
    }

    /** `retrieve`: empty the list, show the spinner and fetch the tags. */
    method Retrieve()
      modifies this`tags, this`loading, this`requests
      ensures tags == [] && loading
      ensures requests == old(requests) + [GetTagsCall(repoName)]
    {
      tags := [];
      loading := true;
      requests := requests + [GetTagsCall(repoName)];
    }

    /**
     * The settlement of `retrieve`'s fetch. The spinner stops either way; on
     * success the list is replaced and an empty list asks the container to
     * refresh the repository, on failure the error is reported.
     */
    method RetrieveResolved(outcome: Outcome<seq<Tag>>)
      modifies this`tags, this`loading, this`events
      ensures !loading
      ensures outcome.Resolved? ==>
        tags == outcome.value
        && events == old(events) + (if |outcome.value| == 0 then [RefreshRepo(true)] else [])
      ensures outcome.Rejected? ==>
        tags == old(tags) && events == old(events) + [ErrorReported(outcome.error)]
    {
      match outcome
      case Resolved(items) =>
        tags := items;
        loading := false;
        if |tags| == 0 {
          events := events + [RefreshRepo(true)];
        }
      case Rejected(error) =>
        events := events + [ErrorReported(error)];
        loading := false;
    }

    /** `deleteTag`: open the dialog built by `DeletionMessage` for a present tag. */
    method DeleteTag(tag: Option<Tag>)
      modifies this`events
      ensures tag.None? ==> events == old(events)
      ensures tag.Some? ==>
        events == old(events) + [DialogOpened(DeletionMessage(tag.value, registryUrl, repoName))]
    {
      if tag.Some? {
        var message := DeletionMessage(tag.value, registryUrl, repoName);
        events := events + [DialogOpened(message)];
      }
    }

    /** `confirmDeletion`: only an acknowledgement passing every gate issues a delete; the rest are no-ops. */
    method ConfirmDeletion(ack: Option<ConfirmationAcknowledgement>)
      modifies this`requests
      ensures TriggersDeletion(ack) ==>
        requests == old(requests) + [DeleteTagCall(repoName, ack.value.data.value.name)]
      ensures !TriggersDeletion(ack) ==> requests == old(requests)
    {
      if ack.Some? && ack.value.source == TagTarget && ack.value.state == Confirmed {
        var tag := ack.value.data;
        if tag.Some? {
          if tag.value.signed {
            return;
          } else {
            requests := requests + [DeleteTagCall(repoName, tag.value.name)];
          }
        }
      }
    }

    /** The settlement of the delete call: on success reload the list and show the success notice. */
    method DeleteResolved(outcome: Outcome<int>)
      modifies this`tags, this`loading, this`requests, this`events
      ensures outcome.Resolved? ==>
        tags == [] && loading && requests == old(requests) + [GetTagsCall(repoName)]
        && events == old(events) + [InfoShown(DeletedTagSuccessKey)]
      ensures outcome.Rejected? ==>
        tags == old(tags) && loading == old(loading) && requests == old(requests)
        && events == old(events) + [ErrorReported(outcome.error)]
    {
      match outcome
      case Resolved(_) =>
        Retrieve();
        events := events + [InfoShown(DeletedTagSuccessKey)];
      case Rejected(error) =>
        events := events + [ErrorReported(error)];
    }

    /** `showDigestId`: open the digest dialog for a present tag and clear an earlier copy failure. */
    method ShowDigestId(tag: Option<Tag>)
      modifies this`manifestInfoTitle, this`digestId, this`showTagManifestOpened, this`copyFailed
      ensures tag.Some? ==>
        manifestInfoTitle == CopyDigestIdTitle && digestId == tag.value.digest
        && showTagManifestOpened && !copyFailed
      ensures tag.None? ==>
        manifestInfoTitle == old(manifestInfoTitle) && digestId == old(digestId)
        && showTagManifestOpened == old(showTagManifestOpened) && copyFailed == old(copyFailed)
    {
      if tag.Some? {
        manifestInfoTitle := CopyDigestIdTitle;
        digestId := tag.value.digest;
        showTagManifestOpened := true;
        copyFailed := false;
      }
    }

    /** `onTagClick`: tell the container which tag was clicked. */
    method OnTagClick(tag: Option<Tag>)
      modifies this`events
      ensures tag.None? ==> events == old(events)
      ensures tag.Some? ==>
        events == old(events) + [TagClicked(TagClickEvent(projectId, repoName, tag.value.name))]
    {
      if tag.Some? {
        var evt := TagClickEvent(projectId, repoName, tag.value.name);
        events := events + [TagClicked(evt)];
      }
    }

    /** `scanTag`: submit a scan unless the tag is already marked as scanning. */
    method ScanTag(tagId: string)
      modifies this`requests
      ensures AlreadyScanning(tagsInScanning, tagId) ==> requests == old(requests)
      ensures !AlreadyScanning(tagsInScanning, tagId) ==>
        requests == old(requests) + [StartScanCall(repoName, tagId)]
    {
      if AlreadyScanning(tagsInScanning, tagId) {
        return;
      }
      requests := requests + [StartScanCall(repoName, tagId)];
    }

    /**
     * The settlement of the scan call: on success mark the tag as scanning and
     * count it; on failure report the error and mark nothing. Marking a fresh
     * name keeps the map and the counter consistent.
     */
    method ScanResolved(tagId: string, outcome: Outcome<()>)
      modifies this`tagsInScanning, this`scanningTagCount, this`events
      ensures outcome.Resolved? ==>
        tagsInScanning == old(tagsInScanning)[tagId := tagId]
        && scanningTagCount == old(scanningTagCount) + 1 && events == old(events)
      ensures outcome.Rejected? ==>
        tagsInScanning == old(tagsInScanning) && scanningTagCount == old(scanningTagCount)
        && events == old(events) + [ErrorReported(outcome.error)]
      ensures outcome.Resolved? && old(ScanStateConsistent()) && tagId !in old(tagsInScanning) ==>
        ScanStateConsistent()
    {
      match outcome
      case Resolved(_) =>
        tagsInScanning := tagsInScanning[tagId := tagId];
        scanningTagCount := scanningTagCount + 1;
      case Rejected(error) =>
        events := events + [ErrorReported(error)];
    }

    /** `updateScanningStates`: fetch the tags to re-synchronise the scanning state. */
    method UpdateScanningStates()
      modifies this`requests
      ensures requests == old(requests) + [GetTagsCall(repoName)]
    {
      requests := requests + [GetTagsCall(repoName)];
    }

    /**
     * The settlement of `updateScanningStates`' fetch. On success the scanning
     * map and counter are rebuilt from scratch out of the fetched list and the
     * list replaces the tags; on failure nothing changes but one error report.
     */
    method UpdateScanningResolved(outcome: Outcome<seq<Tag>>)
      modifies this`tags, this`tagsInScanning, this`scanningTagCount, this`events
      ensures outcome.Resolved? ==>
        tags == outcome.value
        && tagsInScanning.Keys == ScanningNames(outcome.value)
        && (forall k :: k in tagsInScanning ==> tagsInScanning[k] == k)
        && scanningTagCount == InFlightCount(outcome.value)
        && events == old(events)
      ensures outcome.Resolved? ==>
        (ScanStateConsistent() <==> DistinctInFlightNames(outcome.value))
      ensures outcome.Rejected? ==>
        tags == old(tags) && tagsInScanning == old(tagsInScanning)
        && scanningTagCount == old(scanningTagCount)
        && events == old(events) + [ErrorReported(outcome.error)]
    {
      match outcome
      case Resolved(items) =>
        tagsInScanning := map[];
        scanningTagCount := 0;
        var i := 0;
        while i < |items|
          invariant 0 <= i <= |items|
          invariant tagsInScanning.Keys == ScanningNames(items[..i])
          invariant forall k :: k in tagsInScanning ==> tagsInScanning[k] == k
          invariant scanningTagCount == InFlightCount(items[..i])
          invariant events == old(events)
        {
          var item := items[i];
          ReconcileStep(tagsInScanning, scanningTagCount, items, i);
          if InFlight(item) {
            tagsInScanning := tagsInScanning[item.name := item.name];
            scanningTagCount := scanningTagCount + 1;
          }
          i := i + 1;
        }
        assert items[..i] == items;
        tags := items;
        InFlightCountVersusNames(items);
      case Rejected(error) =>
        events := events + [ErrorReported(error)];
    }

    /** `onSuccess` of the clipboard copy: clear the failure flag and close the digest dialog. */
    method OnCopySuccess()
      modifies this`copyFailed, this`showTagManifestOpened
      ensures !copyFailed && !showTagManifestOpened
    {
      copyFailed := false;
      showTagManifestOpened := false;
    }

    /** `onError` of the clipboard copy: raise the failure flag; the dialog stays as it is. */
    method OnCopyError()
      modifies this`copyFailed
      ensures copyFailed
    {
      copyFailed := true;
    }
  }
}
