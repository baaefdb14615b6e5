/**
 * The sync-status view state (src/client/hooks/useSyncStatus.ts): the last
 * status the sync engine reported and whether the offline toast shows.
 */
module SyncStatusView {
  import opened Wrappers
  import opened Sync

  /** The toast's visibility after the listener sees `status` with `message`. */
  function ToastAfter(visible: bool, status: SyncStatus, message: Option<string>): bool {
    if status == Offline && message.Some? && message.value != "" then true
    else if status == Success || status == Idle then false
    else visible
  }

  /**
   * The listener's three cases: an offline report with a message shows the
   * toast, success or idle hides it, and anything else leaves it as it was.
   */
  lemma ToastTransitions(visible: bool, status: SyncStatus, message: Option<string>)
    ensures ToastAfter(visible, status, message) <==>
      (status == Offline && message.Some? && message.value != "")
      || (visible && status != Success && status != Idle)
    ensures status in {Syncing, Error} ==> ToastAfter(visible, status, message) == visible
    ensures status == Offline && (message.None? || message == Some("")) ==> ToastAfter(visible, status, message) == visible
  {
  }

  /** Queueing a link while offline raises the toast; the offline report at start-up carries no message and does not. */
  lemma OfflineReports(visible: bool)
    ensures ToastAfter(visible, Offline, Some(OFFLINE_MESSAGE))
    ensures ToastAfter(visible, Offline, None) == visible
  {
    assert |OFFLINE_MESSAGE| > 0;
  }

  /**
   * After a drain of a non-empty queue the toast is hidden exactly when the
   * pass reports success; a pass that leaves or drops links keeps it as it was.
   */
  lemma PassClosesToast(visible: bool, tasks: seq<SyncTask>, api: CreateUrlApi)
    requires tasks != []
    ensures var n := PassNotification(tasks, api);
      ToastAfter(visible, n.status, n.message) == (visible && n.status != Success)
  {
    PassNeverIdle(tasks, api);
  }

  class SyncToast {
    var syncStatus: SyncStatus
    var offlineToastVisible: bool

    constructor()
      ensures syncStatus == Idle && !offlineToastVisible
    {
      syncStatus := Idle;
      offlineToastVisible := false;
    }

    /** The listener registered with `onSyncStatusChange`. */
    method OnStatus(status: SyncStatus, message: Option<string>)
      modifies this
      ensures syncStatus == status
      ensures offlineToastVisible == ToastAfter(old(offlineToastVisible), status, message)
    {
      syncStatus := status;
      if status == Offline && message.Some? && message.value != "" {
        offlineToastVisible := true;
      } else if status == Success || status == Idle {
        offlineToastVisible := false;
      }
    }

    method HideOfflineToast()
      modifies this
      ensures !offlineToastVisible && syncStatus == old(syncStatus)
    {
      offlineToastVisible := false;
    }

    method ShowOfflineToast()
      modifies this
      ensures offlineToastVisible && syncStatus == old(syncStatus)
    {
      offlineToastVisible := true;
    }
  }
}
