/** The Settings screen's handlers: notification switches, blocked apps and sites, password change, avatar initials. */
module Settings {
  import Lists
  import Strings

  // ---------------------------------------------------------------------------
  // Notifications
  // ---------------------------------------------------------------------------

  /** A notification setting is either a switch or a choice from a drop-down. */
  datatype Setting = Switch(on: bool) | Choice(value: string)

  type Notifications = map<string, Setting>

  const InitialNotifications: Notifications := map[
    "moodReminders" := Switch(true),
    "focusBreaks" := Switch(true),
    "screenTimeAlerts" := Switch(true),
    "weeklyReports" := Switch(true),
    "motivationalTips" := Switch(false),
    "emailNotifications" := Switch(true),
    "pushNotifications" := Switch(true),
    "reminderFrequency" := Choice("daily"),
    "focusBreakInterval" := Choice("20")
  ]

  /** `handleNotificationUpdate`: the key takes the new value; every other key keeps its own. */
  function UpdateNotification(n: Notifications, key: string, value: Setting): (r: Notifications)
    ensures key in r && r[key] == value
    ensures forall k :: k in n && k != key ==> k in r && r[k] == n[k]
    ensures r.Keys == n.Keys + {key}
  {
    n[key := value]
  }

  /** Of two updates to the same key, the later one wins. */
  lemma UpdateLastWins(n: Notifications, key: string, first: Setting, second: Setting)
    ensures UpdateNotification(UpdateNotification(n, key, first), key, second)
            == UpdateNotification(n, key, second)
  {
  }

  /** Updates to different keys do not interfere, in either order. */
  lemma UpdatesCommute(n: Notifications, k1: string, v1: Setting, k2: string, v2: Setting)
    requires k1 != k2
    ensures UpdateNotification(UpdateNotification(n, k1, v1), k2, v2)
            == UpdateNotification(UpdateNotification(n, k2, v2), k1, v1)
  {
  }

  /** The keys of the seven switches. */
  const SwitchKeys: set<string> := {
    "moodReminders", "focusBreaks", "screenTimeAlerts", "weeklyReports",
    "motivationalTips", "emailNotifications", "pushNotifications"
  }

  /** The keys of the two drop-downs. */
  const ChoiceKeys: set<string> := {"reminderFrequency", "focusBreakInterval"}

  /** The updates the screen's controls make: a switch sets a flag, a drop-down a choice. */
  predicate NotificationControl(key: string, value: Setting) {
    (key in SwitchKeys && value.Switch?) || (key in ChoiceKeys && value.Choice?)
  }

  /** The nine settings are present, and each switch holds a flag and each drop-down a choice. */
  predicate Shaped(n: Notifications) {
    && n.Keys == SwitchKeys + ChoiceKeys
    && forall k :: k in n ==> (n[k].Switch? <==> k in SwitchKeys)
  }

  lemma InitialShaped()
    ensures Shaped(InitialNotifications)
  {
  }

  /** Whatever the controls do, the settings keep their nine keys and each key its kind of value. */
  lemma UpdateKeepsShape(n: Notifications, key: string, value: Setting)
    requires Shaped(n) && NotificationControl(key, value)
    ensures Shaped(UpdateNotification(n, key, value))
  {
  }

  /** Setting a key to the value it already has changes nothing. */
  lemma UpdateUnchanged(n: Notifications, key: string)
    requires key in n
    ensures UpdateNotification(n, key, n[key]) == n
  {
  }

  // ---------------------------------------------------------------------------
  // Blocked apps and sites
  // ---------------------------------------------------------------------------

  /** `kind` is "website" or "app" as the form offers it. */
  datatype BlockedItem = BlockedItem(id: string, name: string, kind: string, url: string)

  /** The form for a new item. */
  datatype Draft = Draft(name: string, url: string, kind: string)

  const EmptyDraft := Draft("", "", "website")

  datatype Blocking = Blocking(items: seq<BlockedItem>, draft: Draft)

  const InitialBlocking := Blocking([
      BlockedItem("1", "Facebook", "website", "facebook.com"),
      BlockedItem("2", "Instagram", "app", "instagram.com"),
      BlockedItem("3", "Twitter", "website", "twitter.com"),
      BlockedItem("4", "TikTok", "app", "tiktok.com"),
      BlockedItem("5", "YouTube", "website", "youtube.com")
    ], EmptyDraft)

  /**
   * `addBlockedItem`: when both the name and the address are filled in, the
   * draft becomes a new last item under `id` and the form is cleared; otherwise
   * nothing changes. Nothing is trimmed and nothing is checked for duplicates.
   */
  function AddBlockedItem(b: Blocking, id: string): (r: Blocking)
    ensures r.items != b.items <==> b.draft.name != [] && b.draft.url != []
    ensures r.items != b.items ==>
      && r.items == b.items + [BlockedItem(id, b.draft.name, b.draft.kind, b.draft.url)]
      && r.draft == EmptyDraft
    ensures r.items == b.items ==> r == b
  {
    if b.draft.name != [] && b.draft.url != [] then
      var item := BlockedItem(id, b.draft.name, b.draft.kind, b.draft.url);
      assert (b.items + [item])[|b.items|] == item;
      Blocking(b.items + [item], EmptyDraft)
    else b
  }

  /** Unlike the Focus Mode list, an address already blocked can be blocked again. */
  lemma AddAllowsDuplicateAddress()
    ensures var r := AddBlockedItem(InitialBlocking.(draft := Draft("Facebook", "facebook.com", "website")), "6");
      && |r.items| == 6
      && r.items[0].url == r.items[5].url == "facebook.com"
  {
  }

  /**
   * `removeBlockedItem`: every item with the id goes, the others keep their
   * order; an id not in the list changes nothing. The form is untouched.
   */
  function RemoveBlockedItem(b: Blocking, id: string): (r: Blocking)
    ensures forall k :: 0 <= k < |r.items| ==> r.items[k].id != id && r.items[k] in b.items
    ensures forall k :: 0 <= k < |b.items| && b.items[k].id != id ==> b.items[k] in r.items
    ensures |r.items| == |b.items| - Lists.CountWhere(b.items, (it: BlockedItem) => it.id == id)
    ensures Lists.IsSubsequence(r.items, b.items)
    ensures (forall k :: 0 <= k < |b.items| ==> b.items[k].id != id) ==> r == b
    ensures r.draft == b.draft
  {
    var keep := (it: BlockedItem) => it.id != id;
    Lists.FilterLength(b.items, keep, (it: BlockedItem) => it.id == id);
    b.(items := Lists.Filter(b.items, keep))
  }

  /** Removing the item just added under a fresh id restores the list. */
  lemma AddThenRemove(b: Blocking, id: string)
    requires b.draft.name != [] && b.draft.url != []
    requires forall k :: 0 <= k < |b.items| ==> b.items[k].id != id
    ensures RemoveBlockedItem(AddBlockedItem(b, id), id).items == b.items
  {
    var item := BlockedItem(id, b.draft.name, b.draft.kind, b.draft.url);
    var keep := (it: BlockedItem) => it.id != id;
    Lists.FilterAppend(b.items, [item], keep);
    assert Lists.Filter([item], keep) == [];
  }

  // ---------------------------------------------------------------------------
  // Password change
  // ---------------------------------------------------------------------------

  datatype PasswordData = PasswordData(current: string, newPassword: string, confirm: string)

  const BlankPasswords := PasswordData("", "", "")

  /** The form after the Update Password button, and whether the change went through. */
  datatype PasswordOutcome = PasswordOutcome(data: PasswordData, changed: bool)

  /**
   * `handlePasswordChange`: a mismatched confirmation leaves the form as it
   * is; a matching one clears all three fields. The current password and the
   * emptiness of the new one are not looked at.
   */
  function ChangePassword(p: PasswordData): (r: PasswordOutcome)
    ensures r.changed <==> p.newPassword == p.confirm
    ensures r.changed ==> r.data == BlankPasswords
    ensures !r.changed ==> r.data == p
  {
    if p.newPassword != p.confirm then PasswordOutcome(p, false)
    else PasswordOutcome(BlankPasswords, true)
  }

  /**
   * Submitting again settles: after a success the blank form is accepted
   * again and stays blank; after a rejection the same rejection repeats.
   */
  lemma ChangePasswordSettles(p: PasswordData)
    ensures var first := ChangePassword(p);
      ChangePassword(first.data) == (if first.changed then first else PasswordOutcome(p, false))
  {
  }

  /** Whatever was typed as the current password, and even an empty new one, a matching pair is accepted. */
  lemma ChangeIgnoresCurrent(current: string)
    ensures ChangePassword(PasswordData(current, "", "")).changed
  {
  }

  // ---------------------------------------------------------------------------
  // Avatar initials
  // ---------------------------------------------------------------------------

  predicate NonEmpty(t: string) {
    t != []
  }

  /** The first character of each non-empty token, in order (`t[0]` of an empty token joins as nothing). */
  function FirstLetters(tokens: seq<string>): (r: string)
    ensures |r| == |Lists.Filter(tokens, NonEmpty)|
    ensures forall k :: 0 <= k < |r| ==> r[k] == Lists.Filter(tokens, NonEmpty)[k][0]
  {
    if |tokens| == 0 then []
    else
      var rest := FirstLetters(tokens[1..]);
      if tokens[0] == [] then rest
      else
        var r := [tokens[0][0]] + rest;
        assert Lists.Filter(tokens, NonEmpty) == [tokens[0]] + Lists.Filter(tokens[1..], NonEmpty);
        r
  }

  /**
   * The avatar fallback: the first letter of every word of the name, words
   * being what lies between single spaces. Letter k is the first letter of
   * the k-th non-empty word, and there is never a space.
   */
  function Initials(name: string): (r: string)
    ensures var words := Lists.Filter(Strings.Split(name, ' '), NonEmpty);
      |r| == |words| && forall k :: 0 <= k < |r| ==> r[k] == words[k][0]
    ensures |r| == Lists.CountWhere(Strings.Split(name, ' '), NonEmpty)
    ensures ' ' !in r
  {
    var tokens := Strings.Split(name, ' ');
    var words := Lists.Filter(tokens, NonEmpty);
    var r := FirstLetters(tokens);
    assert forall k :: 0 <= k < |r| ==> r[k] != ' ' by {
      forall k | 0 <= k < |r| ensures r[k] != ' ' {
        assert words[k] in tokens;
        assert r[k] in words[k];
      }
    }
    r
  }

  /** For any name made of non-empty words joined by single spaces, the avatar shows each word's first letter in order. */
  lemma {:induction false} InitialsOfWords(words: seq<string>)
    requires forall i :: 0 <= i < |words| ==> words[i] != [] && ' ' !in words[i]
    ensures var r := Initials(Strings.Join(words, ' '));
      |r| == |words| && forall k :: 0 <= k < |words| ==> r[k] == words[k][0]
  {
    if |words| > 0 {
      Strings.SplitJoin(words, ' ');
      assert Lists.Filter(words, NonEmpty) == words;
    }
  }

  /** The sample profile "Sarah Chen" shows "SC". */
  lemma SampleInitials()
    ensures Initials("Sarah Chen") == "SC"
  {
    Strings.SplitJoin(["Sarah", "Chen"], ' ');
    assert Strings.Join(["Sarah", "Chen"], ' ') == "Sarah Chen";
  }
}
