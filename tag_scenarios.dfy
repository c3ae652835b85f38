/**
 * Scenario methods for the tag panel. Each takes a fresh component through the
 * calls and settlements of one scenario, and its contract states the final
 * state. The proofs use only the contracts of `TagPanel.TagComponent`.
 */
module TagScenarios {
  import opened Wrappers
  import opened TagTypes
  import opened TagPanel

  const Repo := "library/app"
  const Registry := "reg.example.com"

  function RunningTag(name: string): Tag {
    Tag(name, None, false, Some(ScanOverview(Running)))
  }

  function UnscannedTag(name: string): Tag {
    Tag(name, None, false, None)
  }

  /** After one scan has gone through, a poll resolving with a running `v1` and an unscanned `v2` leaves exactly `v1` marked. */
  method ReconcileScenario() returns (keys: set<string>, count: nat, polled: bool)
    ensures keys == {"v1"} && count == 1 && polled
  {
    var c := new TagComponent(1, Repo, Registry);
    c.OnInit();
    c.RetrieveResolved(Resolved([UnscannedTag("v1"), UnscannedTag("v2")]));
    c.ScanTag("v1");
    c.ScanResolved("v1", Resolved(()));
    var before := |c.requests|;
    c.Tick();
    polled := |c.requests| == before + 1;
    var fetched := [RunningTag("v1"), UnscannedTag("v2")];
    c.UpdateScanningResolved(Resolved(fetched));
    assert InFlight(fetched[0]) && !InFlight(fetched[1]);
    assert ScanningNames(fetched) == {"v1"};
    keys, count := c.tagsInScanning.Keys, c.scanningTagCount;
  }

  /** A poll that returns the same running name twice counts two scans against one key. */
  method DuplicateNamesScenario() returns (keys: set<string>, count: nat)
    ensures keys == {"v1"} && count == 2
  {
    var c := new TagComponent(1, Repo, Registry);
    var fetched := [RunningTag("v1"), RunningTag("v1")];
    c.UpdateScanningResolved(Resolved(fetched));
    assert InFlight(fetched[0]) && InFlight(fetched[1]);
    assert ScanningNames(fetched) == {"v1"};
    keys, count := c.tagsInScanning.Keys, c.scanningTagCount;
  }

  /**
   * Two scan requests for the same tag, with or without the first one settling
   * in between, and every issued scan settling successfully at the end. A
   * second call is suppressed only when the first has already been marked and
   * the tag id is non-empty; otherwise both go out and count twice against one key.
   */
  method ScanTwiceScenario(tagId: string, settleBetween: bool)
    returns (issued: nat, keys: set<string>, count: nat)
    ensures issued == if settleBetween && tagId != "" then 1 else 2
    ensures keys == {tagId} && count == issued
  {
    var c := new TagComponent(1, Repo, Registry);
    c.ScanTag(tagId);
    if settleBetween {
      c.ScanResolved(tagId, Resolved(()));
    }
    c.ScanTag(tagId);
    issued := |c.requests|;
    var outstanding := if settleBetween then issued - 1 else issued;
    var k := 0;
    while k < outstanding
      invariant 0 <= k <= outstanding
      invariant c.tagsInScanning.Keys == (if settleBetween || k > 0 then {tagId} else {})
      invariant c.scanningTagCount == (if settleBetween then 1 else 0) + k
      invariant |c.requests| == issued
    {
      c.ScanResolved(tagId, Resolved(()));
      k := k + 1;
    }
    keys, count := c.tagsInScanning.Keys, c.scanningTagCount;
  }

  /** Confirming deletion of unsigned `v2`: the delete goes out, the list reloads, the success notice follows. */
  method DeleteConfirmedScenario() returns (requests: seq<Request>, lastEvent: Event)
    ensures requests == [GetTagsCall(Repo), DeleteTagCall(Repo, "v2"), GetTagsCall(Repo)]
    ensures lastEvent == InfoShown(DeletedTagSuccessKey)
  {
    var c := new TagComponent(1, Repo, Registry);
    c.OnInit();
    var v2 := UnscannedTag("v2");
    c.RetrieveResolved(Resolved([v2]));
    c.DeleteTag(Some(v2));
    c.ConfirmDeletion(Some(ConfirmationAcknowledgement(Confirmed, Some(v2), TagTarget)));
    c.DeleteResolved(Resolved(0));
    requests, lastEvent := c.requests, c.events[|c.events| - 1];
  }

  /** A signed tag gets the notary dialog, and confirming that dialog deletes nothing. */
  method SignedDeletionScenario() returns (dialog: Event, requests: seq<Request>)
    ensures dialog.DialogOpened? && dialog.message.buttons == Close
    ensures dialog.message.content == NotaryRemoveCommand(Registry, Repo, "v1")
    ensures requests == []
  {
    var c := new TagComponent(1, Repo, Registry);
    var v1 := Tag("v1", Some("sha256:0f"), true, None);
    c.DeleteTag(Some(v1));
    dialog := c.events[|c.events| - 1];
    c.ConfirmDeletion(Some(ConfirmationAcknowledgement(Confirmed, Some(dialog.message.data), dialog.message.target)));
    requests := c.requests;
  }

  /** Copying the digest: success closes the dialog with no failure flag, failure keeps it open and flags it. */
  method CopyDigestScenario(copySucceeds: bool) returns (digest: Option<string>, failed: bool, open: bool)
    ensures digest == Some("sha256:0f")
    ensures failed == !copySucceeds && open == !copySucceeds
  {
    var c := new TagComponent(1, Repo, Registry);
    c.OnCopyError();
    c.ShowDigestId(Some(Tag("v1", Some("sha256:0f"), false, None)));
    if copySucceeds {
      c.OnCopySuccess();
    } else {
      c.OnCopyError();
    }
    digest, failed, open := c.digestId, c.copyFailed, c.showTagManifestOpened;
  }
}
