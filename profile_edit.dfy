/** The profile editor of `src/components/profile-edit.tsx`: `load` fills
    the form from the user's profile row and sender rows, `saveProfile`
    writes the trimmed form back, and `addSender` inserts a new sender
    identity. What the auth service and the database answer is an input to
    each handler, including the answer to the `load` that follows a
    successful write. */
module ProfileEdit {
  import opened JsValue
  import opened JsString

  /** A `profiles` row; `None` is a `null` column. */
  datatype ProfileRow = ProfileRow(userId: string, name: Option<string>, email: Option<string>,
                                   domain: Option<string>, phone: Option<string>, country: Option<string>,
                                   avatar: Option<string>, resendApiKey: Option<string>)

  /** A `sender_identities` row. */
  datatype SenderRow = SenderRow(id: int, userId: string, name: string, address: string, verified: bool)

  /** What `load` gets: no signed-in user, an error from one of the two
      queries, or the profile row and the sender rows (`None` for `null`). */
  datatype LoadResult = NoUser | LoadFailed(message: string) | Loaded(profile: ProfileRow, senders: Option<seq<SenderRow>>)

  /** What a write gets back: no error, or an error with its message. */
  datatype WriteResult = WriteOk | WriteError(message: string)

  /** The columns `saveProfile` writes. */
  datatype Update = Update(name: string, domain: string, phone: string, country: string, avatar: string,
                           resendApiKey: Option<string>)

  /** The row `addSender` inserts. */
  datatype Insert = Insert(userId: string, name: string, address: string, verified: bool)

  datatype Notice = Success(text: string) | Failure(text: string)

  datatype EditorState = EditorState(
    loading: bool, saving: bool, addingSender: bool,
    profile: Option<ProfileRow>, senders: seq<SenderRow>,
    name: string, domain: string, phone: string, country: string, avatar: string, resendKey: string,
    newSenderName: string, newSenderAddress: string)

  /** A handler's effect: the new state, the toasts and the navigations. */
  datatype Effect = Effect(state: EditorState, notices: seq<Notice>, navigation: seq<string>)

  const SignInPage := "/auth?next=/profile"
  const ProfilePage := "/profile"
  const LoadFailedText := "Failed to load profile"
  const UpdateFailedText := "Failed to update profile"
  const AddFailedText := "Failed to add sender"
  const DeleteFailedText := "Failed to delete sender"
  const SenderRequired := "Sender name and address are required"

  /** `column ?? ''`. */
  function OrEmpty(column: Option<string>): string {
    if column.Some? then column.value else ""
  }

  /** `load` from state `s`. */
  function LoadStep(s: EditorState, r: LoadResult): Effect {
    match r
    case NoUser => Effect(s.(loading := false), [], [SignInPage])
    case LoadFailed(message) => Effect(s.(loading := false), [Failure(MessageOr(message, LoadFailedText))], [])
    case Loaded(p, rows) =>
      Effect(EditorState(false, s.saving, s.addingSender, Some(p), if rows.Some? then rows.value else [],
                         OrEmpty(p.name), OrEmpty(p.domain), OrEmpty(p.phone), OrEmpty(p.country),
                         OrEmpty(p.avatar), OrEmpty(p.resendApiKey), s.newSenderName, s.newSenderAddress),
             [], [])
  }

  /** Loading a profile sets each form field to its column, `''` for a
      `null` column, and touches neither the new-sender inputs nor the
      flags of the other handlers; a failed load changes nothing but
      `loading`. */
  lemma LoadFillsForm(s: EditorState, r: LoadResult)
    ensures var t := LoadStep(s, r).state;
            && !t.loading && t.saving == s.saving && t.addingSender == s.addingSender
            && t.newSenderName == s.newSenderName && t.newSenderAddress == s.newSenderAddress
            && (r.Loaded? ==>
                  && t.profile == Some(r.profile)
                  && (r.profile.name.Some? ==> t.name == r.profile.name.value)
                  && (r.profile.name.None? ==> t.name == "")
                  && (r.profile.resendApiKey.Some? ==> t.resendKey == r.profile.resendApiKey.value)
                  && (r.profile.resendApiKey.None? ==> t.resendKey == "")
                  && t.domain == OrEmpty(r.profile.domain) && t.phone == OrEmpty(r.profile.phone)
                  && t.country == OrEmpty(r.profile.country) && t.avatar == OrEmpty(r.profile.avatar)
                  && t.senders == (if r.senders.Some? then r.senders.value else []))
            && (!r.Loaded? ==> t == s.(loading := false))
            && (r.NoUser? <==> LoadStep(s, r).navigation == [SignInPage])
  {
  }

  /** `resendKey.trim() || null`. */
  function KeyOrNull(key: string): (r: Option<string>)
    ensures r.Some? ==> r.value != ""
  {
    var t := Trim(key);
    if t != "" then Some(t) else None
  }

  /** The key is `null` exactly when the input is empty or all whitespace,
      and otherwise the input without its surrounding whitespace. */
  lemma KeyNullIffBlank(key: string)
    ensures KeyOrNull(key).None? <==> AllWhitespace(key)
    ensures KeyOrNull(key).Some? ==> KeyOrNull(key).value == Trim(key) && Trim(KeyOrNull(key).value) == KeyOrNull(key).value
  {
    TrimBlank(key);
    TrimIdempotent(key);
  }

  /** The columns `saveProfile` writes: the trimmed form fields. */
  function UpdateOf(s: EditorState): Update {
    Update(Trim(s.name), Trim(s.domain), Trim(s.phone), Trim(s.country), Trim(s.avatar), KeyOrNull(s.resendKey))
  }

  /** A column is trimmed when trimming leaves it as it is (a `null`
      column counts as trimmed). */
  predicate Trimmed(column: Option<string>) {
    column.None? || Trim(column.value) == column.value
  }

  /** Loading a profile whose columns are already trimmed and saving it at
      once writes the same columns back, `null` columns as `''` except the
      key, which stays `null` (and an empty key becomes `null`). */
  lemma LoadThenSave(s: EditorState, p: ProfileRow, rows: Option<seq<SenderRow>>)
    requires Trimmed(p.name) && Trimmed(p.domain) && Trimmed(p.phone) && Trimmed(p.country)
    requires Trimmed(p.avatar) && Trimmed(p.resendApiKey)
    ensures var u := UpdateOf(LoadStep(s, Loaded(p, rows)).state);
            && u.name == OrEmpty(p.name) && u.domain == OrEmpty(p.domain) && u.phone == OrEmpty(p.phone)
            && u.country == OrEmpty(p.country) && u.avatar == OrEmpty(p.avatar)
            && u.resendApiKey == (if p.resendApiKey == Some("") then None else p.resendApiKey)
  {
    var e: string := "";
    assert Trim(e) == e by {
      TrimBlank(e);
    }
  }

  /** `saveProfile` from state `s`: the update it sends (with the row's
      `user_id`), and its effect. */
  function SaveStep(s: EditorState, write: WriteResult, reload: LoadResult): (Option<(string, Update)>, Effect) {
    if s.profile.None? || s.profile.value.userId == "" then
      (None, Effect(s, [], []))
    else
      var call := (s.profile.value.userId, UpdateOf(s));
      match write
      case WriteError(message) =>
        (Some(call), Effect(s.(saving := false), [Failure(MessageOr(message, UpdateFailedText))], []))
      case WriteOk =>
        var l := LoadStep(s, reload);
        (Some(call), Effect(l.state.(saving := false), [Success("Profile updated")] + l.notices,
                            [ProfilePage] + l.navigation))
  }

  /** Without a loaded profile nothing is written and nothing changes; with
      one, the update holds the trimmed fields for that profile's user, and
      only a successful write reloads the form. */
  lemma SaveSpec(s: EditorState, write: WriteResult, reload: LoadResult)
    ensures (s.profile.None? || s.profile.value.userId == "") <==> SaveStep(s, write, reload).0.None?
    ensures SaveStep(s, write, reload).0.None? ==> SaveStep(s, write, reload).1 == Effect(s, [], [])
    ensures SaveStep(s, write, reload).0.Some? ==>
              && SaveStep(s, write, reload).0.value == (s.profile.value.userId, UpdateOf(s))
              && !SaveStep(s, write, reload).1.state.saving
              && (write.WriteError? ==> SaveStep(s, write, reload).1.state == s.(saving := false))
              && (write.WriteError? ==>
                    && SaveStep(s, write, reload).1.navigation == []
                    && SaveStep(s, write, reload).1.notices
                         == [Failure(if write.message != "" then write.message else UpdateFailedText)])
              && (write.WriteOk? ==>
                    && SaveStep(s, write, reload).1.state == LoadStep(s, reload).state.(saving := false)
                    && SaveStep(s, write, reload).1.navigation == [ProfilePage] + LoadStep(s, reload).navigation
                    && SaveStep(s, write, reload).1.notices[0] == Success("Profile updated"))
  {
  }

  /** `addSender` from state `s`: the row it inserts, and its effect. */
  function AddStep(s: EditorState, write: WriteResult, reload: LoadResult): (Option<Insert>, Effect) {
    if s.profile.None? || s.profile.value.userId == "" then
      (None, Effect(s, [], []))
    else if Trim(s.newSenderName) == "" || Trim(s.newSenderAddress) == "" then
      (None, Effect(s, [Failure(SenderRequired)], []))
    else
      var row := Insert(s.profile.value.userId, Trim(s.newSenderName), Trim(s.newSenderAddress), true);
      match write
      case WriteError(message) =>
        (Some(row), Effect(s.(addingSender := false), [Failure(MessageOr(message, AddFailedText))], []))
      case WriteOk =>
        var l := LoadStep(s.(newSenderName := "", newSenderAddress := ""), reload);
        (Some(row), Effect(l.state.(addingSender := false), [Success("Sender added")] + l.notices, l.navigation))
  }

  /** A sender is inserted only for a loaded profile and a name and address
      that are not blank; the row holds them trimmed, the profile's user and
      `verified = true`. The inputs are cleared only after a successful
      insert. */
  lemma AddSpec(s: EditorState, write: WriteResult, reload: LoadResult)
    ensures AddStep(s, write, reload).0.Some? <==>
              s.profile.Some? && s.profile.value.userId != ""
              && !AllWhitespace(s.newSenderName) && !AllWhitespace(s.newSenderAddress)
    ensures AddStep(s, write, reload).0.None? ==> AddStep(s, write, reload).1.state == s
    ensures AddStep(s, write, reload).0.Some? ==>
              var row := AddStep(s, write, reload).0.value;
              var t := AddStep(s, write, reload).1.state;
              && row == Insert(s.profile.value.userId, Trim(s.newSenderName), Trim(s.newSenderAddress), true)
              && !t.addingSender
              && (write.WriteOk? ==> t.newSenderName == "" && t.newSenderAddress == "")
              && (write.WriteError? ==> t == s.(addingSender := false))
  {
    TrimBlank(s.newSenderName);
    TrimBlank(s.newSenderAddress);
  }

  /** `deleteSender(id)` from state `s`: the row is always asked to be
      deleted; only a successful delete reloads the form. */
  function DeleteStep(s: EditorState, write: WriteResult, reload: LoadResult): Effect {
    match write
    case WriteError(message) => Effect(s, [Failure(MessageOr(message, DeleteFailedText))], [])
    case WriteOk =>
      var l := LoadStep(s, reload);
      Effect(l.state, [Success("Sender removed")] + l.notices, l.navigation)
  }

  /** A failed delete changes nothing and reports the database's message or
      `Failed to delete sender`; a successful one reports `Sender removed`
      and leaves the state a reload leaves. */
  lemma DeleteSpec(s: EditorState, write: WriteResult, reload: LoadResult)
    ensures write.WriteError? ==> DeleteStep(s, write, reload).state == s
    ensures write.WriteError? ==> |DeleteStep(s, write, reload).notices| == 1
                                  && DeleteStep(s, write, reload).notices[0].Failure?
                                  && DeleteStep(s, write, reload).notices[0].text != ""
    ensures write.WriteOk? ==> DeleteStep(s, write, reload).state == LoadStep(s, reload).state
                               && DeleteStep(s, write, reload).notices[0] == Success("Sender removed")
  {
  }

  /** The class strings that are truthy, in order. */
  function Truthies(classes: seq<Field>): (r: seq<string>)
    ensures |r| <= |classes|
    ensures forall k :: 0 <= k < |r| ==> r[k] != ""
    decreases |classes|
  {
    if classes == [] then []
    else (if Truthy(classes[0]) then [classes[0].s] else []) + Truthies(classes[1..])
  }

  /** `cn(...classes)`: the truthy class strings joined with single spaces. */
  function Cn(classes: seq<Field>): string {
    Join(Truthies(classes), " ")
  }

  /** `cn` gives `''` exactly when no class is truthy; and when no class
      string holds a space, splitting its result on spaces gives back the
      truthy classes, in order. */
  lemma CnSplitsBack(classes: seq<Field>)
    ensures Cn(classes) == "" <==> Truthies(classes) == []
    ensures Truthies(classes) != [] && (forall k :: 0 <= k < |classes| && Truthy(classes[k]) ==> !Includes(classes[k].s, " "))
            ==> Split(Cn(classes), " ") == Truthies(classes)
  {
    JoinNonEmpty(Truthies(classes), " ");
    if Truthies(classes) != [] && (forall k :: 0 <= k < |classes| && Truthy(classes[k]) ==> !Includes(classes[k].s, " ")) {
      TruthiesFree(classes, " ");
      SplitJoin(Truthies(classes), " ");
    }
  }

  /** A separator that no truthy class holds is in no truthy class string. */
  lemma {:induction false} TruthiesFree(classes: seq<Field>, sep: string)
    requires forall k :: 0 <= k < |classes| && Truthy(classes[k]) ==> !Includes(classes[k].s, sep)
    ensures forall k :: 0 <= k < |Truthies(classes)| ==> IndexOf(Truthies(classes)[k], sep).None?
    decreases |classes|
  {
    if classes != [] {
      var rest := classes[1..];
      assert forall k :: 0 <= k < |rest| && Truthy(rest[k]) ==> !Includes(rest[k].s, sep) by {
        forall k | 0 <= k < |rest| && Truthy(rest[k]) ensures !Includes(rest[k].s, sep) {
          assert rest[k] == classes[k + 1];
        }
      }
      TruthiesFree(rest, sep);
    }
  }

  /** Joining non-empty strings gives the empty string only for no strings. */
  lemma {:induction false} JoinNonEmpty(parts: seq<string>, sep: string)
    requires forall k :: 0 <= k < |parts| ==> parts[k] != ""
    ensures Join(parts, sep) == "" <==> parts == []
  {
    if |parts| >= 2 {
      assert |Join(parts, sep)| >= |parts[0]|;
    }
  }

  /** The component's state and its handlers. */
  class ProfileEditor {
    var loading: bool
    var saving: bool
    var addingSender: bool
    var profile: Option<ProfileRow>
    var senders: seq<SenderRow>
    var name: string
    var domain: string
    var phone: string
    var country: string
    var avatar: string
    var resendKey: string
    var newSenderName: string
    var newSenderAddress: string

    function State(): EditorState
      reads this
    {
      EditorState(loading, saving, addingSender, profile, senders, name, domain, phone, country, avatar,
                  resendKey, newSenderName, newSenderAddress)
    }

    /** The first render: loading, with an empty form. */
    constructor()
      ensures State() == EditorState(true, false, false, None, [], "", "", "", "", "", "", "", "")
    {
      loading, saving, addingSender := true, false, false;
      profile, senders := None, [];
      name, domain, phone, country, avatar, resendKey := "", "", "", "", "", "";
      newSenderName, newSenderAddress := "", "";
    }

    /** `load`. */
    method Load(r: LoadResult) returns (notices: seq<Notice>, navigation: seq<string>)
      modifies this
      ensures State() == LoadStep(old(State()), r).state
      ensures notices == LoadStep(old(State()), r).notices
      ensures navigation == LoadStep(old(State()), r).navigation
    {
      loading := true;
      notices, navigation := [], [];
      match r {
        case NoUser =>
          navigation := [SignInPage];
        case LoadFailed(message) =>
          notices := [Failure(MessageOr(message, LoadFailedText))];
        case Loaded(p, rows) =>
          Fill(p, rows);
      }
      loading := false;
    }

    /** The form fields set from a loaded profile row and sender rows. */
    method Fill(p: ProfileRow, rows: Option<seq<SenderRow>>)
      modifies this`profile, this`senders, this`name, this`domain, this`phone, this`country, this`avatar, this`resendKey
      ensures profile == Some(p) && senders == (if rows.Some? then rows.value else [])
      ensures name == OrEmpty(p.name) && domain == OrEmpty(p.domain) && phone == OrEmpty(p.phone)
      ensures country == OrEmpty(p.country) && avatar == OrEmpty(p.avatar) && resendKey == OrEmpty(p.resendApiKey)
    {
      profile := Some(p);
      senders := if rows.Some? then rows.value else [];
      name := OrEmpty(p.name);
      domain := OrEmpty(p.domain);
      phone := OrEmpty(p.phone);
      country := OrEmpty(p.country);
      avatar := OrEmpty(p.avatar);
      resendKey := OrEmpty(p.resendApiKey);
    }

    /** `saveProfile`. */
    method SaveProfile(write: WriteResult, reload: LoadResult)
      returns (call: Option<(string, Update)>, notices: seq<Notice>, navigation: seq<string>)
      modifies this
      ensures (call, Effect(State(), notices, navigation)) == SaveStep(old(State()), write, reload)
    {
      if profile.None? || profile.value.userId == "" {
        return None, [], [];
      }
      saving := true;
      call := Some((profile.value.userId,
                    Update(Trim(name), Trim(domain), Trim(phone), Trim(country), Trim(avatar), KeyOrNull(resendKey))));
      match write {
        case WriteError(message) =>
          notices, navigation := [Failure(MessageOr(message, UpdateFailedText))], [];
        case WriteOk =>
          var more, moreNav := Load(reload);
          notices := [Success("Profile updated")] + more;
          navigation := [ProfilePage] + moreNav;
      }
      saving := false;
    }

    /** `deleteSender`, given what the delete query answers. */
    method DeleteSender(write: WriteResult, reload: LoadResult)
      returns (notices: seq<Notice>, navigation: seq<string>)
      modifies this
      ensures Effect(State(), notices, navigation) == DeleteStep(old(State()), write, reload)
    {
      match write {
        case WriteError(message) =>
          notices, navigation := [Failure(MessageOr(message, DeleteFailedText))], [];
        case WriteOk =>
          var more, moreNav := Load(reload);
          notices := [Success("Sender removed")] + more;
          navigation := moreNav;
      }
    }

    /** `addSender`. */
    method AddSender(write: WriteResult, reload: LoadResult)
      returns (row: Option<Insert>, notices: seq<Notice>, navigation: seq<string>)
      modifies this
      ensures (row, Effect(State(), notices, navigation)) == AddStep(old(State()), write, reload)
    {
      if profile.None? || profile.value.userId == "" {
        return None, [], [];
      }
      if Trim(newSenderName) == "" || Trim(newSenderAddress) == "" {
        return None, [Failure(SenderRequired)], [];
      }
      addingSender := true;
      row := Some(Insert(profile.value.userId, Trim(newSenderName), Trim(newSenderAddress), true));
      match write {
        case WriteError(message) =>
          notices, navigation := [Failure(MessageOr(message, AddFailedText))], [];
        case WriteOk =>
          newSenderName := "";
          newSenderAddress := "";
          var more, moreNav := Load(reload);
          notices := [Success("Sender added")] + more;
          navigation := moreNav;
      }
      addingSender := false;
    }
  }
}
