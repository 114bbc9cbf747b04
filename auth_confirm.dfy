/** The email-confirmation page of `src/app/auth/confirm/auth-confirm.tsx`:
    `run` first tries the one-time-password link in the query, then the
    tokens in the URL fragment, and otherwise sends the visitor back to the
    sign-in page with an error. What the auth service answers to each call
    is an input. */
module AuthConfirm {
  import opened JsValue
  import opened JsString
  import SearchParams
  import Entries
  import opened Router

  /** The URL-query text as `URLSearchParams` reads it, before decoding: a
      leading `?` is dropped. */
  function StripQuestionMark(s: string): string {
    if s != [] && s[0] == '?' then s[1..] else s
  }

  /** The `&`-separated segments that are not empty. */
  function Segments(s: string): (r: seq<string>)
    ensures forall k :: 0 <= k < |r| ==> r[k] != ""
  {
    NonEmpty(Split(s, "&"))
  }

  function NonEmpty(pieces: seq<string>): (r: seq<string>)
    ensures forall k :: 0 <= k < |r| ==> r[k] != ""
    ensures (forall k :: 0 <= k < |pieces| ==> pieces[k] != "") ==> r == pieces
    decreases |pieces|
  {
    if pieces == [] then []
    else (if pieces[0] == "" then [] else [pieces[0]]) + NonEmpty(pieces[1..])
  }

  /** One segment as a name/value pair: split at its first `=`, the whole
      segment being the name (with an empty value) when it has none. */
  function SegmentPair(segment: string): (string, string) {
    match IndexOf(segment, "=")
    case None => (segment, "")
    case Some(i) => (segment[..i], segment[i + 1..])
  }

  function Pairs(segments: seq<string>): (r: seq<(string, string)>)
    ensures |r| == |segments|
    ensures forall k :: 0 <= k < |segments| ==> r[k] == SegmentPair(segments[k])
  {
    seq(|segments|, k requires 0 <= k < |segments| => SegmentPair(segments[k]))
  }

  /** `getHashParams`: without a window, no parameters; otherwise the pairs
      of the fragment after its first character (the `#`), the last of
      each name winning, as `Object.fromEntries` keeps it. */
  function HashParams(hash: Option<string>): map<string, string> {
    match hash
    case None => map[]
    case Some(h) =>
      var text := if h == [] then h else h[1..];
      Entries.Assign(map[], Pairs(Segments(StripQuestionMark(text))))
  }

  /** A fragment written as `#name=value&...`, one pair per name. */
  function Fragment(pairs: seq<(string, string)>): string
    requires |pairs| >= 1
  {
    "#" + Join(PairTexts(pairs), "&")
  }

  function PairTexts(pairs: seq<(string, string)>): (r: seq<string>)
    ensures |r| == |pairs|
    ensures forall k :: 0 <= k < |pairs| ==> r[k] == pairs[k].0 + "=" + pairs[k].1
  {
    seq(|pairs|, k requires 0 <= k < |pairs| => pairs[k].0 + "=" + pairs[k].1)
  }

  /** Names that read back: no `&` or `=` in a name, no `&` in a value, and
      the first name does not start with `?`. */
  predicate Readable(pairs: seq<(string, string)>) {
    |pairs| >= 1
    && (forall k :: 0 <= k < |pairs| ==> !Includes(pairs[k].0, "&") && !Includes(pairs[k].0, "="))
    && (forall k :: 0 <= k < |pairs| ==> !Includes(pairs[k].1, "&"))
    && (pairs[0].0 == "" || pairs[0].0[0] != '?')
  }

  /** A segment `name=value` whose name has no `=` reads back as that pair. */
  lemma SegmentPairOf(name: string, value: string)
    requires !Includes(name, "=")
    ensures SegmentPair(name + "=" + value) == (name, value)
  {
    var s := name + "=" + value;
    assert OccursAt(s, "=", |name|) by {
      assert s[|name|..|name| + 1] == "=";
    }
    forall j | 0 <= j < |name| ensures !OccursAt(s, "=", j) {
      assert s[j..j + 1] == name[j..j + 1];
      assert !OccursAt(name, "=", j);
    }
    assert IndexOf(s, "=") == Some(|name|);
    assert s[..|name|] == name && s[|name| + 1..] == value;
  }

  /** The segments of a fragment written from readable pairs are the
      `name=value` texts of those pairs. */
  lemma FragmentSegments(pairs: seq<(string, string)>)
    requires Readable(pairs)
    ensures Segments(StripQuestionMark(Fragment(pairs)[1..])) == PairTexts(pairs)
  {
    var texts := PairTexts(pairs);
    forall k | 0 <= k < |texts| ensures IndexOf(texts[k], "&").None? {
      NoSeparatorInPair(pairs[k].0, pairs[k].1);
    }
    SplitJoin(texts, "&");
    var body := Join(texts, "&");
    assert Fragment(pairs)[1..] == body;
    assert StripQuestionMark(body) == body by {
      assert body == texts[0] || body[..|texts[0]|] == texts[0];
      assert body[0] == texts[0][0];
    }
  }

  /** Reading a fragment written from readable pairs gives back those pairs,
      assigned in order. */
  lemma FragmentRoundTrip(pairs: seq<(string, string)>)
    requires Readable(pairs)
    ensures Pairs(Segments(StripQuestionMark(Fragment(pairs)[1..]))) == pairs
    ensures HashParams(Some(Fragment(pairs))) == Entries.Assign(map[], pairs)
  {
    FragmentSegments(pairs);
    var texts := PairTexts(pairs);
    forall k | 0 <= k < |pairs| ensures SegmentPair(texts[k]) == pairs[k] {
      SegmentPairOf(pairs[k].0, pairs[k].1);
    }
    assert Pairs(texts) == pairs;
  }

  /** So each name of the fragment is a parameter, holding the value of the
      last pair with that name. */
  lemma FragmentValues(pairs: seq<(string, string)>, k: int)
    requires Readable(pairs) && 0 <= k < |pairs|
    ensures pairs[k].0 in HashParams(Some(Fragment(pairs)))
    ensures Entries.LastFor(pairs, pairs[k].0, k) ==> HashParams(Some(Fragment(pairs)))[pairs[k].0] == pairs[k].1
  {
    FragmentRoundTrip(pairs);
    Entries.AssignLookup(map[], pairs, pairs[k].0);
  }

  /** `name=value` has no `&` when neither part has one. */
  lemma NoSeparatorInPair(name: string, value: string)
    requires !Includes(name, "&") && !Includes(value, "&")
    ensures IndexOf(name + "=" + value, "&").None?
  {
    var s := name + "=" + value;
    forall j | 0 <= j < |s| ensures !OccursAt(s, "&", j) {
      if j < |name| {
        assert s[j..j + 1] == name[j..j + 1];
        assert !OccursAt(name, "&", j);
      } else if j > |name| {
        assert s[j..j + 1] == value[j - |name| - 1..j - |name|];
        assert !OccursAt(value, "&", j - |name| - 1);
      }
    }
  }

  /** The calls `run` makes and where it goes. */
  datatype Trace = Trace(verifyOtp: Option<(string, string)>, setSession: Option<(string, string)>,
                         navigation: seq<Nav>)

  const Success := "/sent"
  const Failed := "/auth?error=confirm_failed"

  /** `run`, given the query, the window's fragment (`None` without a
      window), and whether `verifyOtp` and `setSession` would succeed. */
  function Run(query: SearchParams.Params, hash: Option<string>, otpOk: bool, sessionOk: bool): Trace {
    var tokenHash := FieldOf(SearchParams.Get(query, "token_hash"));
    var kind := FieldOf(SearchParams.Get(query, "type"));
    var otp := if Truthy(tokenHash) && Truthy(kind) then Some((tokenHash.s, kind.s)) else None;
    if otp.Some? && otpOk then
      Trace(otp, None, [Replace(Success), Refresh])
    else
      var fragment := HashParams(hash);
      var access := Lookup(fragment, "access_token");
      var refresh := Lookup(fragment, "refresh_token");
      var session := if Truthy(access) && Truthy(refresh) then Some((access.s, refresh.s)) else None;
      if session.Some? && sessionOk then
        Trace(otp, session, [Replace(Success), Refresh])
      else
        Trace(otp, session, [Replace(Failed)])
  }

  /** The number of `replace` navigations. */
  function Replaces(navs: seq<Nav>): nat {
    |set k | 0 <= k < |navs| && navs[k].Replace?|
  }

  /** The one-time password is tried exactly when the query has a non-empty
      `token_hash` and `type`; the fragment's tokens are tried exactly when
      that did not succeed and both tokens are non-empty. */
  lemma CallsMade(query: SearchParams.Params, hash: Option<string>, otpOk: bool, sessionOk: bool)
    ensures var t := Run(query, hash, otpOk, sessionOk);
            var tokenHash := FieldOf(SearchParams.Get(query, "token_hash"));
            var kind := FieldOf(SearchParams.Get(query, "type"));
            var fragment := HashParams(hash);
            && (t.verifyOtp.Some? <==> Truthy(tokenHash) && Truthy(kind))
            && (t.setSession.Some? <==>
                  !(t.verifyOtp.Some? && otpOk)
                  && Truthy(Lookup(fragment, "access_token")) && Truthy(Lookup(fragment, "refresh_token")))
  {
  }

  /** Exactly one `replace` happens: to `/sent` when a call that was made
      succeeded, to the error page otherwise. */
  lemma OneNavigation(query: SearchParams.Params, hash: Option<string>, otpOk: bool, sessionOk: bool)
    ensures var t := Run(query, hash, otpOk, sessionOk);
            && Replaces(t.navigation) == 1
            && t.navigation[0].Replace?
            && (t.navigation[0].path == Success <==>
                  (t.verifyOtp.Some? && otpOk) || (t.setSession.Some? && sessionOk))
            && (t.navigation[0].path == Success || t.navigation[0].path == Failed)
  {
    var t := Run(query, hash, otpOk, sessionOk);
    if |t.navigation| == 2 {
      assert (set k | 0 <= k < 2 && t.navigation[k].Replace?) == {0};
    } else {
      assert (set k | 0 <= k < 1 && t.navigation[k].Replace?) == {0};
    }
  }

  /** Without a window there are no fragment parameters, so only the
      one-time password can succeed. */
  lemma NoWindowNoSession(query: SearchParams.Params, otpOk: bool, sessionOk: bool)
    ensures HashParams(None) == map[]
    ensures Run(query, None, otpOk, sessionOk).setSession.None?
  {
  }
}
