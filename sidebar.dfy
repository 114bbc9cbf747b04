/** The desktop side bar of `src/components/Layout/SideBar.tsx`: the
    section it highlights is the `active` prop when given, and otherwise
    comes from the first section name the pathname contains. */
module SideBar {
  import opened JsValue
  import opened JsString

  datatype Section = Inbox | Sent | Drafts | Scheduled | Trash

  /** The sections whose paths are looked for, in the order they are tried. */
  const Searched: seq<(string, Section)> := [("/sent", Sent), ("/drafts", Drafts),
                                            ("/scheduled", Scheduled), ("/trash", Trash)]

  /** The five items, in the order they are shown. */
  const Items: seq<Section> := [Inbox, Sent, Drafts, Scheduled, Trash]

  /** `currentActive`. */
  function CurrentActive(active: Option<Section>, pathname: string): Section {
    if active.Some? then active.value
    else if Includes(pathname, "/sent") then Sent
    else if Includes(pathname, "/drafts") then Drafts
    else if Includes(pathname, "/scheduled") then Scheduled
    else if Includes(pathname, "/trash") then Trash
    else Inbox
  }

  /** The section of the first entry of `searched` whose path occurs in the
      pathname, `Inbox` when none does. */
  function FirstMatch(searched: seq<(string, Section)>, pathname: string): Section {
    if searched == [] then Inbox
    else if Includes(pathname, searched[0].0) then searched[0].1
    else FirstMatch(searched[1..], pathname)
  }

  /** The prop wins when given; otherwise the section is the first one, in
      the order sent, drafts, scheduled, trash, whose path occurs anywhere
      in the pathname. */
  lemma CurrentActiveIsFirstMatch(active: Option<Section>, pathname: string)
    ensures active.Some? ==> CurrentActive(active, pathname) == active.value
    ensures active.None? ==> CurrentActive(active, pathname) == FirstMatch(Searched, pathname)
  {
    var s1, s2, s3 := Searched[1..], Searched[2..], Searched[3..];
    assert s1 == [("/drafts", Drafts), ("/scheduled", Scheduled), ("/trash", Trash)] && s1[1..] == s2;
    assert s2 == [("/scheduled", Scheduled), ("/trash", Trash)] && s2[1..] == s3;
    assert s3 == [("/trash", Trash)] && s3[1..] == [];
    assert FirstMatch(s3, pathname) == if Includes(pathname, "/trash") then Trash else Inbox;
    assert FirstMatch(s2, pathname) == if Includes(pathname, "/scheduled") then Scheduled else FirstMatch(s3, pathname);
    assert FirstMatch(s1, pathname) == if Includes(pathname, "/drafts") then Drafts else FirstMatch(s2, pathname);
  }

  /** `FirstMatch` picks the section of an entry whose path occurs, with no
      earlier entry's path occurring; `Inbox` only when no path occurs. */
  lemma {:induction false} FirstMatchSpec(searched: seq<(string, Section)>, pathname: string)
    requires forall k :: 0 <= k < |searched| ==> searched[k].1 != Inbox
    ensures FirstMatch(searched, pathname) == Inbox <==>
              forall k :: 0 <= k < |searched| ==> !Includes(pathname, searched[k].0)
    ensures FirstMatch(searched, pathname) != Inbox ==>
              exists k :: 0 <= k < |searched| && Includes(pathname, searched[k].0)
                          && searched[k].1 == FirstMatch(searched, pathname)
                          && forall j :: 0 <= j < k ==> !Includes(pathname, searched[j].0)
    decreases |searched|
  {
    if searched != [] && !Includes(pathname, searched[0].0) {
      var rest := searched[1..];
      FirstMatchSpec(rest, pathname);
      if FirstMatch(rest, pathname) != Inbox {
        var k :| 0 <= k < |rest| && Includes(pathname, rest[k].0) && rest[k].1 == FirstMatch(rest, pathname)
                 && forall j :: 0 <= j < k ==> !Includes(pathname, rest[j].0);
        assert searched[k + 1] == rest[k];
        forall j | 0 <= j < k + 1 ensures !Includes(pathname, searched[j].0) {
          if j > 0 {
            assert searched[j] == rest[j - 1];
          }
        }
      } else {
        forall k | 0 <= k < |searched| ensures !Includes(pathname, searched[k].0) {
          if k > 0 {
            assert searched[k] == rest[k - 1];
          }
        }
      }
    }
  }

  /** The items' `active` flags. */
  function Flags(current: Section): (r: seq<bool>)
    ensures |r| == |Items|
  {
    seq(|Items|, k requires 0 <= k < |Items| => Items[k] == current)
  }

  /** Exactly one item is highlighted, the one for the current section. */
  lemma ExactlyOneActive(active: Option<Section>, pathname: string)
    ensures var current := CurrentActive(active, pathname);
            var flags := Flags(current);
            && (exists k :: 0 <= k < |flags| && flags[k] && Items[k] == current)
            && forall i, j :: 0 <= i < |flags| && 0 <= j < |flags| && flags[i] && flags[j] ==> i == j
  {
    var current := CurrentActive(active, pathname);
    var k := match current
             case Inbox => 0
             case Sent => 1
             case Drafts => 2
             case Scheduled => 3
             case Trash => 4;
    assert Flags(current)[k] && Items[k] == current;
  }

  /** The pathname is searched, not matched at its start: `/x/sent/y`
      highlights Sent, and `/` and `/inbox` highlight Inbox. */
  lemma SubstringExamples()
    ensures CurrentActive(None, "/x/sent/y") == Sent
    ensures CurrentActive(None, "/") == Inbox
    ensures CurrentActive(None, "/inbox") == Inbox
  {
    assert OccursAt("/x/sent/y", "/sent", 2) by {
      assert "/x/sent/y"[2..7] == "/sent";
    }
    NotIncludedWhenShort("/", "/sent");
    NotIncludedWhenShort("/", "/drafts");
    NotIncludedWhenShort("/", "/scheduled");
    NotIncludedWhenShort("/", "/trash");
    NotIncludedWhenShort("/inbox", "/drafts");
    NotIncludedWhenShort("/inbox", "/scheduled");
    forall j ensures !OccursAt("/inbox", "/sent", j) {
      if 0 <= j && j + 5 <= 6 {
        assert "/inbox"[j..j + 5][1] == "/inbox"[j + 1];
      }
    }
    forall j ensures !OccursAt("/inbox", "/trash", j) {
      if 0 <= j && j + 6 <= 6 {
        assert "/inbox"[j..j + 6][1] == "/inbox"[j + 1];
      }
    }
  }

  /** A string does not contain a longer one. */
  lemma NotIncludedWhenShort(s: string, t: string)
    requires |s| < |t|
    ensures !Includes(s, t)
  {
  }
}
