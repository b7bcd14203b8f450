/**
 * The home screen skill's own state: the active and archived notification
 * lists with the five handlers that edit them in place, and the older
 * wallpaper rotation over the skill's wallpaper folder. The display surface
 * is a handful of fields standing for the GUI keys the handlers write.
 */
module Homescreen {
  import opened Wrappers
  import opened Messages
  import opened Sequences
  import opened Notifications
  import Rotation

  /** The value of the GUI key "notification_model". */
  datatype NotificationModel = NotificationModel(storedmodel: seq<Value>, count: int)

  /** The value of the GUI key "notification": never set, the empty dict `{}`, or a record. */
  datatype Shown = Unset | Empty | Shows(n: Notification)

  class MycroftHomescreen {
    /** The active notifications, in arrival order. */
    var notificationsModel: seq<Notification>
    /** The archive: the payloads of popped notifications, in order. */
    var notificationsStorageModel: seq<Value>
    var selectedWallpaper: string
    /** The file names found in the wallpaper folder. */
    var wallpaperCollection: seq<string>
    /** The skill's persisted settings. */
    var settings: map<string, string>
    /** GUI key "notifcation_counter" (spelled so in the skill); None until first set. */
    var guiNotificationCounter: Option<int>
    /** GUI key "notification": the notification on display. */
    var guiNotification: Shown
    /** GUI key "notification_model"; None until first set. */
    var guiNotificationModel: Option<NotificationModel>
    /** GUI key "selected_wallpaper"; None until first set. */
    var guiSelectedWallpaper: Option<string>

    /** No two active notifications are equal. */
    ghost predicate Valid()
      reads this
    {
      Distinct(notificationsModel)
    }

    /** The displayed archive and its count agree with the archive. */
    ghost predicate CountShown()
      reads this
    {
      guiNotificationModel.Some? ==>
        guiNotificationModel.value == NotificationModel(notificationsStorageModel, |notificationsStorageModel|)
    }

    constructor (settings: map<string, string>)
      ensures Valid() && CountShown()
      ensures notificationsModel == [] && notificationsStorageModel == [] && wallpaperCollection == []
      ensures selectedWallpaper == if "wallpaper" in settings then settings["wallpaper"] else "default.png"
      ensures this.settings == settings
      ensures guiNotificationCounter == None && guiNotification == Unset
      ensures guiNotificationModel == None && guiSelectedWallpaper == None
    {
      notificationsModel := [];
      notificationsStorageModel := [];
      selectedWallpaper := if "wallpaper" in settings then settings["wallpaper"] else "default.png";
      wallpaperCollection := [];
      this.settings := settings;
      guiNotificationCounter := None;
      guiNotification := Unset;
      guiNotificationModel := None;
      guiSelectedWallpaper := None;
    }

    /**
     * `collect_wallpapers`: `walk` holds the file names of each directory the
     * walk visits, in order; each one replaces the collection, so the last wins.
     */
    method CollectWallpapers(walk: seq<seq<string>>)
      modifies this`wallpaperCollection
      ensures wallpaperCollection == if walk == [] then old(wallpaperCollection) else walk[|walk| - 1]
    {
      for k := 0 to |walk|
        invariant wallpaperCollection == if k == 0 then old(wallpaperCollection) else walk[k - 1]
      {
        wallpaperCollection := walk[k];
      }
    }

    /**
     * `change_wallpaper`: the entry after the first occurrence of the
     * selection, or the first entry when that occurrence is the last index;
     * the new selection is persisted and displayed. A selection missing from
     * the collection makes the skill raise TypeError, and is excluded.
     */
    method ChangeWallpaper()
      requires selectedWallpaper in wallpaperCollection
      modifies this`selectedWallpaper, this`settings, this`guiSelectedWallpaper
      ensures selectedWallpaper == Rotation.LegacyNext(wallpaperCollection, old(selectedWallpaper))
      ensures selectedWallpaper in wallpaperCollection
      ensures settings == old(settings)["wallpaper" := selectedWallpaper]
      ensures guiSelectedWallpaper == Some(selectedWallpaper)
    {
      var currentIdx := Rotation.IndexOf(wallpaperCollection, selectedWallpaper);
      var collectionLength := |wallpaperCollection| - 1;
      if !(currentIdx.Some? && currentIdx.value == collectionLength) {
        var fidx := currentIdx.value + 1;
        selectedWallpaper := wallpaperCollection[fidx];
        settings := settings["wallpaper" := wallpaperCollection[fidx]];
      } else {
        selectedWallpaper := wallpaperCollection[0];
        settings := settings["wallpaper" := wallpaperCollection[0]];
      }
      guiSelectedWallpaper := Some(selectedWallpaper);
    }

    /**
     * `handle_display_notification`: the normalised notification is appended
     * unless an equal one is active; on acceptance the counter shows the new
     * length, the notification is displayed and `shown` reports the show event.
     */
    method HandleDisplayNotification(data: map<string, string>) returns (shown: bool)
      requires Valid()
      modifies this`notificationsModel, this`guiNotificationCounter, this`guiNotification
      ensures Valid()
      ensures shown == (Normalise(data) !in old(notificationsModel))
      ensures notificationsModel == Accept(old(notificationsModel), Normalise(data))
      ensures shown ==> notificationsModel == old(notificationsModel) + [Normalise(data)]
      ensures shown ==> guiNotificationCounter == Some(|notificationsModel|) && guiNotification == Shows(Normalise(data))
      ensures !shown ==> notificationsModel == old(notificationsModel)
      ensures !shown ==> guiNotificationCounter == old(guiNotificationCounter) && guiNotification == old(guiNotification)
    {
      var notificationMessage := Normalise(data);
      shown := false;
      if notificationMessage !in notificationsModel {
        notificationsModel := notificationsModel + [notificationMessage];
        guiNotificationCounter := Some(|notificationsModel|);
        guiNotification := Shows(notificationMessage);
        shown := true;
      }
    }

    /**
     * `handle_clear_notification_data`: archives the payload first, whatever
     * follows, then deletes the first active entry with its sender and text.
     * A payload lookup that raises leaves the grown archive and skips the
     * display update.
     */
    method HandleClearNotificationData(notification: Value) returns (outcome: Outcome)
      requires Valid()
      modifies this`notificationsModel, this`notificationsStorageModel, this`guiNotificationModel, this`guiNotification
      ensures Valid()
      ensures notificationsStorageModel == old(notificationsStorageModel) + [notification]
      ensures match DeleteFirstMatch(old(notificationsModel), notification)
              case Ok(rest) =>
                outcome == Done && notificationsModel == rest && guiNotification == Empty &&
                guiNotificationModel == Some(NotificationModel(notificationsStorageModel, |notificationsStorageModel|))
              case Err(e) =>
                outcome == Raised(e) && notificationsModel == old(notificationsModel) &&
                guiNotification == old(guiNotification) && guiNotificationModel == old(guiNotificationModel)
      ensures outcome == Done ==> CountShown()
    {
      notificationsStorageModel := notificationsStorageModel + [notification];
      for i := 0 to |notificationsModel|
        invariant notificationsModel == old(notificationsModel)
        invariant DeleteFrom(notificationsModel, AsRecord, notification, i) == DeleteFirstMatch(old(notificationsModel), notification)
      {
        var hit := SenderTextEqual(AsRecord(notificationsModel[i]), notification);
        if hit.Err? {
          return Raised(hit.error);
        }
        if hit.value {
          if |notificationsModel| == 0 {
            // the skill's branch for an empty list cannot be reached here
            assert false;
          }
          DistinctRemove(notificationsModel, i);
          notificationsModel := notificationsModel[..i] + notificationsModel[i + 1..];
          break;
        }
      }
      guiNotificationModel := Some(NotificationModel(notificationsStorageModel, |notificationsStorageModel|));
      guiNotification := Empty;
      outcome := Done;
    }

    /**
     * `handle_clear_delete_notification_data`: deletes the first active entry
     * with the payload's sender and text; the archive is never touched.
     */
    method HandleClearDeleteNotificationData(notification: Value) returns (outcome: Outcome)
      requires Valid()
      modifies this`notificationsModel
      ensures Valid()
      ensures match DeleteFirstMatch(old(notificationsModel), notification)
              case Ok(rest) => outcome == Done && notificationsModel == rest
              case Err(e) => outcome == Raised(e) && notificationsModel == old(notificationsModel)
    {
      for i := 0 to |notificationsModel|
        invariant notificationsModel == old(notificationsModel)
        invariant DeleteFrom(notificationsModel, AsRecord, notification, i) == DeleteFirstMatch(old(notificationsModel), notification)
      {
        var hit := SenderTextEqual(AsRecord(notificationsModel[i]), notification);
        if hit.Err? {
          return Raised(hit.error);
        }
        if hit.value {
          if |notificationsModel| == 0 {
            // the skill's branch for an empty list cannot be reached here
            assert false;
          }
          DistinctRemove(notificationsModel, i);
          notificationsModel := notificationsModel[..i] + notificationsModel[i + 1..];
          break;
        }
      }
      outcome := Done;
    }

    /** `handle_clear_notification_storage`: empties the archive and shows a count of 0. */
    method HandleClearNotificationStorage()
      modifies this`notificationsStorageModel, this`guiNotificationModel
      ensures notificationsStorageModel == []
      ensures guiNotificationModel == Some(NotificationModel([], 0))
      ensures CountShown()
    {
      notificationsStorageModel := [];
      guiNotificationModel := Some(NotificationModel(notificationsStorageModel, |notificationsStorageModel|));
    }

    /**
     * `handle_clear_notification_storage_item`, its index loop as written: the
     * bound is the archive's length before the loop, each hit is popped and
     * the display updated at once, and an index past the shortened archive
     * raises IndexError with the pops done so far kept.
     */
    method HandleClearNotificationStorageItem(notification: Value) returns (outcome: Outcome)
      modifies this`notificationsStorageModel, this`guiNotificationModel
      ensures var scan := ScanRemove(old(notificationsStorageModel), notification, |old(notificationsStorageModel)|, 0);
              notificationsStorageModel == scan.archive && outcome == scan.outcome
      ensures |notificationsStorageModel| < |old(notificationsStorageModel)| ==>
                guiNotificationModel == Some(NotificationModel(notificationsStorageModel, |notificationsStorageModel|))
      ensures |notificationsStorageModel| >= |old(notificationsStorageModel)| ==>
                notificationsStorageModel == old(notificationsStorageModel) && guiNotificationModel == old(guiNotificationModel)
      ensures old(CountShown()) ==> CountShown()
    {
      var n := |notificationsStorageModel|;
      for i := 0 to n
        invariant ScanRemove(notificationsStorageModel, notification, n, i) ==
                  ScanRemove(old(notificationsStorageModel), notification, n, 0)
        invariant |notificationsStorageModel| <= n
        invariant |notificationsStorageModel| < n ==>
                    guiNotificationModel == Some(NotificationModel(notificationsStorageModel, |notificationsStorageModel|))
        invariant |notificationsStorageModel| == n ==>
                    notificationsStorageModel == old(notificationsStorageModel) && guiNotificationModel == old(guiNotificationModel)
      {
        if i >= |notificationsStorageModel| {
          return Raised(IndexError);
        }
        var hit := SenderTextEqual(notificationsStorageModel[i], notification);
        if hit.Err? {
          return Raised(hit.error);
        }
        if hit.value {
          notificationsStorageModel := notificationsStorageModel[..i] + notificationsStorageModel[i + 1..];
          guiNotificationModel := Some(NotificationModel(notificationsStorageModel, |notificationsStorageModel|));
        }
      }
      outcome := Done;
    }
  }

  /**
   * A client of the class: the same notification delivered twice is shown
   * once, and the second delivery changes nothing.
   */
  method NotifyTwice(h: MycroftHomescreen, data: map<string, string>)
    requires h.Valid() && h.notificationsModel == []
    modifies h
    ensures h.notificationsModel == [Normalise(data)]
  {
    var first := h.HandleDisplayNotification(data);
    var second := h.HandleDisplayNotification(data);
    assert first && !second;
  }

  /**
   * A client of the class: popping the only active notification by its
   * sender and text moves its payload to the archive and empties the list.
   */
  method PopOnly(h: MycroftHomescreen, n: Notification, payload: map<string, string>)
    requires h.Valid() && h.notificationsModel == [n] && h.notificationsStorageModel == []
    requires "sender" in payload && "text" in payload
    requires payload["sender"] == n.sender && payload["text"] == n.text
    modifies h
    ensures h.notificationsModel == [] && h.notificationsStorageModel == [Dict(payload)]
    ensures h.guiNotificationModel == Some(NotificationModel([Dict(payload)], 1))
  {
    DeleteFirstMatchSpec([n], payload);
    assert IsFirstMatch([n], 0, payload["sender"], payload["text"]);
    var outcome := h.HandleClearNotificationData(Dict(payload));
  }
}
