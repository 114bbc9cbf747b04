/** The blog file parser of `src/lib/blogs.ts`: a flat text file holds the
    posts separated by `===`; in each post a header of `key: value` lines is
    separated from the body by the first `---`. The file's contents are a
    parameter here (the source reads them from disk). */
module Blogs {
  import opened JsValue
  import opened JsString
  import Entries

  datatype BlogPost = BlogPost(title: string, slug: string, date: string, excerpt: string, content: string)

  /** The outcome of parsing the whole file: the posts, or the block that
      made the parser throw because it lacks a title or a slug. */
  datatype Parsed = Posts(posts: seq<BlogPost>) | Invalid(block: string)

  const PostSeparator := "==="
  const HeaderSeparator := "---"

  /** `pieces.map(s => s.trim()).filter(Boolean)`: the trimmed pieces that are
      not empty, in order. */
  function NonBlank(pieces: seq<string>): (r: seq<string>)
    ensures |r| <= |pieces|
    ensures forall k :: 0 <= k < |r| ==> r[k] != ""
    decreases |pieces|
  {
    if pieces == [] then []
    else
      var t := Trim(pieces[0]);
      (if t == "" then [] else [t]) + NonBlank(pieces[1..])
  }

  /** A string is kept exactly when it is non-empty and the trimmed form of
      some piece. */
  lemma {:induction false} NonBlankMembers(pieces: seq<string>, x: string)
    ensures x in NonBlank(pieces) <==> x != "" && exists k :: 0 <= k < |pieces| && Trim(pieces[k]) == x
    decreases |pieces|
  {
    if pieces != [] {
      NonBlankMembers(pieces[1..], x);
      if x != "" && exists k :: 0 <= k < |pieces| && Trim(pieces[k]) == x {
        var k :| 0 <= k < |pieces| && Trim(pieces[k]) == x;
        if k > 0 {
          assert pieces[1..][k - 1] == pieces[k];
        }
      }
      if exists k :: 0 <= k < |pieces[1..]| && Trim(pieces[1..][k]) == x {
        var k :| 0 <= k < |pieces[1..]| && Trim(pieces[1..][k]) == x;
        assert pieces[k + 1] == pieces[1..][k];
      }
    }
  }

  /** The post blocks of a file: the text between `===` separators, trimmed,
      with the blank ones dropped. */
  function Blocks(raw: string): seq<string> {
    NonBlank(Split(raw, PostSeparator))
  }

  /** `b` is the trimmed form of a piece that is not all whitespace. */
  ghost predicate TrimOfNonBlankPiece(pieces: seq<string>, b: string) {
    exists k :: 0 <= k < |pieces| && !AllWhitespace(pieces[k]) && Trim(pieces[k]) == b
  }

  /** Every block is trimmed and non-empty, and a block comes from each
      piece between separators that is not all whitespace, and from no
      other. */
  lemma BlankBlocksDropped(raw: string, b: string)
    ensures b in Blocks(raw) ==> b != "" && Trim(b) == b
    ensures b in Blocks(raw) <==> TrimOfNonBlankPiece(Split(raw, PostSeparator), b)
  {
    var pieces := Split(raw, PostSeparator);
    NonBlankMembers(pieces, b);
    if b in Blocks(raw) {
      var k :| 0 <= k < |pieces| && Trim(pieces[k]) == b;
      TrimBlank(pieces[k]);
      TrimIdempotent(pieces[k]);
    }
    if TrimOfNonBlankPiece(pieces, b) {
      var k :| 0 <= k < |pieces| && !AllWhitespace(pieces[k]) && Trim(pieces[k]) == b;
      TrimBlank(pieces[k]);
    }
  }

  /** The header/content split of one block: the text before the first `---`,
      and the text after it with any further `---` put back, trimmed. */
  function HeaderOf(block: string): string {
    Split(block, HeaderSeparator)[0]
  }

  function ContentOf(block: string): string {
    Trim(Join(Split(block, HeaderSeparator)[1..], HeaderSeparator))
  }

  lemma {:induction false} HeaderAndContent(block: string)
    ensures IndexOf(block, HeaderSeparator).None? ==> HeaderOf(block) == block && ContentOf(block) == ""
    ensures IndexOf(block, HeaderSeparator).Some? ==>
              var i := IndexOf(block, HeaderSeparator).value;
              HeaderOf(block) == block[..i] && ContentOf(block) == Trim(block[i + 3..])
  {
    JoinTail(block, HeaderSeparator);
  }

  /** The header lines: split on newlines, trimmed, blank ones dropped. */
  function MetaLines(header: string): seq<string> {
    NonBlank(Split(header, "\n"))
  }

  /** One header line as `line.split(':')` reads it: no entry when the line
      has no `:` or nothing before its first `:`; otherwise the key is the
      text before the first `:` trimmed and lower-cased, the value all the
      rest (colons included) trimmed. */
  function LineEntry(line: string): Option<(string, string)> {
    var parts := Split(line, ":");
    if parts[0] == "" || |parts| == 1 then None
    else Some((ToLower(Trim(parts[0])), Trim(Join(parts[1..], ":"))))
  }

  lemma {:induction false} LineEntryAtFirstColon(line: string)
    ensures IndexOf(line, ":").None? ==> LineEntry(line).None?
    ensures IndexOf(line, ":") == Some(0) ==> LineEntry(line).None?
    ensures IndexOf(line, ":").Some? && IndexOf(line, ":").value > 0 ==>
              var i := IndexOf(line, ":").value;
              LineEntry(line) == Some((ToLower(Trim(line[..i])), Trim(line[i + 1..])))
  {
    JoinTail(line, ":");
    if IndexOf(line, ":").Some? {
      var i := IndexOf(line, ":").value;
      assert |Split(line, ":")| > 1 by {
        SplitAtFirst(line, ":", i);
      }
    }
  }

  /** The entries the header lines contribute, in order. */
  function EntriesOf(lines: seq<string>): seq<(string, string)>
    decreases |lines|
  {
    if lines == [] then []
    else
      var init := EntriesOf(lines[..|lines| - 1]);
      match LineEntry(lines[|lines| - 1])
      case None => init
      case Some(e) => init + [e]
  }

  /** The `meta` record the header lines build, each line overwriting the
      key of an earlier one. */
  function MetaOf(lines: seq<string>): map<string, string> {
    Entries.Assign(map[], EntriesOf(lines))
  }

  /** The `for` loop over the header lines that fills `meta`. */
  method ParseMeta(lines: seq<string>) returns (meta: map<string, string>)
    ensures meta == MetaOf(lines)
  {
    meta := map[];
    var i := 0;
    while i < |lines|
      invariant 0 <= i <= |lines|
      invariant meta == Entries.Assign(map[], EntriesOf(lines[..i]))
    {
      var line := lines[i];
      assert lines[..i + 1][..i] == lines[..i];
      var parts := Split(line, ":");
      if parts[0] != "" && |parts| > 1 {
        meta := meta[ToLower(Trim(parts[0])) := Trim(Join(parts[1..], ":"))];
      }
      i := i + 1;
    }
    assert lines[..i] == lines;
  }

  /** A key the header names is present, and holds the value of the last
      line naming it; a key no line names is absent. */
  lemma MetaLastWins(lines: seq<string>, key: string)
    ensures key in MetaOf(lines) <==> exists i :: 0 <= i < |EntriesOf(lines)| && EntriesOf(lines)[i].0 == key
    ensures forall i :: Entries.LastFor(EntriesOf(lines), key, i) ==> MetaOf(lines)[key] == EntriesOf(lines)[i].1
  {
    var m: map<string, string> := map[];
    Entries.AssignLookup(m, EntriesOf(lines), key);
    assert key !in m;
  }

  /** The `.map` callback: one block to a post, or `None` where it throws. */
  function BlockToPost(block: string): (r: Option<BlogPost>)
    ensures r.Some? ==> r.value.title != "" && r.value.slug != ""
    ensures r.None? <==> !Truthy(Lookup(MetaOf(MetaLines(HeaderOf(block))), "title"))
                         || !Truthy(Lookup(MetaOf(MetaLines(HeaderOf(block))), "slug"))
  {
    var meta := MetaOf(MetaLines(HeaderOf(block)));
    var content := ContentOf(block);
    if !Truthy(Lookup(meta, "title")) || !Truthy(Lookup(meta, "slug")) then None
    else Some(BlogPost(
      meta["title"],
      meta["slug"],
      Coalesce(Lookup(meta, "date"), ""),
      Coalesce(Lookup(meta, "excerpt"), ""),
      content))
  }

  /** A post's fields come from its header, `date` and `excerpt` defaulting
      to the empty string, and its content is the trimmed text after the
      first `---`. */
  lemma PostFields(block: string)
    requires BlockToPost(block).Some?
    ensures var meta := MetaOf(MetaLines(HeaderOf(block)));
            var p := BlockToPost(block).value;
            && p.title == meta["title"] && p.slug == meta["slug"]
            && p.date == (if "date" in meta then meta["date"] else "")
            && p.excerpt == (if "excerpt" in meta then meta["excerpt"] else "")
            && p.content == ContentOf(block)
  {
  }

  /** The callback as the source runs it, with the header loop inside. */
  method ParseBlock(block: string) returns (r: Option<BlogPost>)
    ensures r == BlockToPost(block)
  {
    var parts := Split(block, HeaderSeparator);
    var meta := ParseMeta(NonBlank(Split(parts[0], "\n")));
    var content := Trim(Join(parts[1..], HeaderSeparator));
    if "title" !in meta || meta["title"] == "" || "slug" !in meta || meta["slug"] == "" {
      return None;
    }
    r := Some(BlogPost(
      meta["title"],
      meta["slug"],
      if "date" in meta then meta["date"] else "",
      if "excerpt" in meta then meta["excerpt"] else "",
      content));
  }

  /** Mapping the callback over the blocks: the first block that throws
      aborts the whole parse. */
  function ParsePosts(blocks: seq<string>): Parsed
    decreases |blocks|
  {
    if blocks == [] then Posts([])
    else
      match BlockToPost(blocks[0])
      case None => Invalid(blocks[0])
      case Some(p) =>
        match ParsePosts(blocks[1..])
        case Invalid(b) => Invalid(b)
        case Posts(ps) => Posts([p] + ps)
  }

  /** A successful parse holds each block's post, in the blocks' order. */
  lemma {:induction false} ParsePostsOk(blocks: seq<string>)
    ensures ParsePosts(blocks).Posts? ==>
              |ParsePosts(blocks).posts| == |blocks|
              && forall k :: 0 <= k < |blocks| ==> BlockToPost(blocks[k]) == Some(ParsePosts(blocks).posts[k])
    decreases |blocks|
  {
    if blocks != [] && ParsePosts(blocks).Posts? {
      var tail := blocks[1..];
      ParsePostsOk(tail);
      var ps := ParsePosts(blocks).posts;
      var rest := ParsePosts(tail).posts;
      assert ps == [BlockToPost(blocks[0]).value] + rest;
      forall k | 1 <= k < |blocks| ensures BlockToPost(blocks[k]) == Some(ps[k]) {
        assert blocks[k] == tail[k - 1] && ps[k] == rest[k - 1];
      }
    }
  }

  /** The parse succeeds exactly when every block has a title and a slug. */
  lemma {:induction false} ParsePostsAllOk(blocks: seq<string>)
    ensures ParsePosts(blocks).Posts? <==> forall k :: 0 <= k < |blocks| ==> BlockToPost(blocks[k]).Some?
    decreases |blocks|
  {
    ParsePostsOk(blocks);
    if blocks != [] && forall k :: 0 <= k < |blocks| ==> BlockToPost(blocks[k]).Some? {
      var tail := blocks[1..];
      ParsePostsAllOk(tail);
      forall k | 0 <= k < |tail| ensures BlockToPost(tail[k]).Some? {
        assert tail[k] == blocks[k + 1];
      }
    }
  }

  /** A failed parse names the first block without a title or a slug. */
  lemma {:induction false} ParsePostsInvalid(blocks: seq<string>)
    requires ParsePosts(blocks).Invalid?
    ensures exists k :: 0 <= k < |blocks| && blocks[k] == ParsePosts(blocks).block
                        && BlockToPost(blocks[k]).None?
                        && forall j :: 0 <= j < k ==> BlockToPost(blocks[j]).Some?
    decreases |blocks|
  {
    var b := ParsePosts(blocks).block;
    if BlockToPost(blocks[0]).Some? {
      var tail := blocks[1..];
      ParsePostsInvalid(tail);
      var k :| 0 <= k < |tail| && tail[k] == b && BlockToPost(tail[k]).None?
               && forall j :: 0 <= j < k ==> BlockToPost(tail[j]).Some?;
      assert blocks[k + 1] == b;
      forall j | 0 <= j < k + 1 ensures BlockToPost(blocks[j]).Some? {
        if j > 0 {
          assert blocks[j] == tail[j - 1];
        }
      }
    } else {
      assert blocks[0] == b;
    }
  }

  /** `parseBlogsFile` on the file's contents. */
  function ParseBlogsFile(raw: string): Parsed {
    ParsePosts(Blocks(raw))
  }

  /** Every post the parser returns has a non-empty title and slug, and the
      parse succeeds exactly when every block has both. */
  lemma ParsedPostsValid(raw: string)
    ensures ParseBlogsFile(raw).Posts? ==> forall p :: p in ParseBlogsFile(raw).posts ==> p.title != "" && p.slug != ""
    ensures ParseBlogsFile(raw).Posts? <==> forall b :: b in Blocks(raw) ==> BlockToPost(b).Some?
  {
    var blocks := Blocks(raw);
    ParsePostsOk(blocks);
    ParsePostsAllOk(blocks);
    if ParseBlogsFile(raw).Posts? {
      var ps := ParseBlogsFile(raw).posts;
      forall p | p in ps ensures p.title != "" && p.slug != "" {
        var k :| 0 <= k < |ps| && ps[k] == p;
        assert BlockToPost(blocks[k]) == Some(p);
      }
    }
  }

  /** Posts newest first: no post's date string is below a later post's. */
  ghost predicate NewestFirst(posts: seq<BlogPost>) {
    forall p, q :: 0 <= p < q < |posts| ==> !Less(posts[p].date, posts[q].date)
  }

  lemma {:induction false} AdjacentIsNewestFirst(posts: seq<BlogPost>)
    requires AdjacentSorted(posts, 0, |posts|)
    ensures NewestFirst(posts)
    decreases |posts|
  {
    if |posts| > 1 {
      var tail := posts[1..];
      AdjacentIsNewestFirst(tail);
      forall q | 1 < q < |posts| ensures !Less(posts[0].date, posts[q].date) {
        assert !Less(tail[0].date, tail[q - 1].date);
        NotLessTransitive(posts[0].date, posts[1].date, posts[q].date);
      }
      forall p, q | 0 < p < q < |posts| ensures !Less(posts[p].date, posts[q].date) {
        assert posts[p] == tail[p - 1] && posts[q] == tail[q - 1];
      }
    }
  }

  lemma LessAsymmetric(a: string, b: string)
    requires Less(a, b)
    ensures !Less(b, a)
  {
    if Less(b, a) {
      LessTransitive(a, b, a);
      LessIrreflexive(a);
    }
  }

  /** Neighbours in `s[lo..hi]` are in newest-first order. */
  ghost predicate AdjacentSorted(s: seq<BlogPost>, lo: int, hi: int)
    requires 0 <= lo && hi <= |s|
  {
    forall p :: lo <= p < hi - 1 ==> !Less(s[p].date, s[p + 1].date)
  }

  /** `posts.sort((a, b) => (a.date < b.date ? 1 : -1))`, in place: an
      insertion sort that moves each post left past every neighbour whose
      date is below its own. */
  method SortNewestFirst(a: array<BlogPost>)
    modifies a
    ensures NewestFirst(a[..])
    ensures multiset(a[..]) == multiset(old(a[..]))
  {
    var i := 0;
    while i < a.Length
      invariant 0 <= i <= a.Length
      invariant AdjacentSorted(a[..], 0, i)
      invariant multiset(a[..]) == multiset(old(a[..]))
    {
      InsertLeft(a, i);
      i := i + 1;
    }
    AdjacentIsNewestFirst(a[..]);
  }

  /** One pass of the insertion sort: `a[i]` moves left into place. */
  method InsertLeft(a: array<BlogPost>, i: int)
    requires 0 <= i < a.Length
    requires AdjacentSorted(a[..], 0, i)
    modifies a
    ensures AdjacentSorted(a[..], 0, i + 1)
    ensures multiset(a[..]) == multiset(old(a[..]))
  {
    var j := i;
    while j > 0 && Less(a[j - 1].date, a[j].date)
      invariant 0 <= j <= i
      invariant AdjacentSorted(a[..], 0, j) && AdjacentSorted(a[..], j, i + 1)
      invariant 0 < j < i ==> !Less(a[j - 1].date, a[j + 1].date)
      invariant multiset(a[..]) == multiset(old(a[..]))
    {
      SwapStep(a[..], j, i);
      a[j - 1], a[j] := a[j], a[j - 1];
      j := j - 1;
    }
    Glue(a[..], j, i);
  }

  /** Swapping the moving post with a neighbour whose date is below its
      own keeps both sorted runs around it. */
  lemma SwapStep(s: seq<BlogPost>, j: int, i: int)
    requires 0 < j <= i < |s|
    requires AdjacentSorted(s, 0, j) && AdjacentSorted(s, j, i + 1)
    requires j < i ==> !Less(s[j - 1].date, s[j + 1].date)
    requires Less(s[j - 1].date, s[j].date)
    ensures var t := s[j - 1 := s[j]][j := s[j - 1]];
            AdjacentSorted(t, 0, j - 1) && AdjacentSorted(t, j - 1, i + 1)
            && (0 < j - 1 ==> !Less(t[j - 2].date, t[j].date))
  {
    LessAsymmetric(s[j - 1].date, s[j].date);
  }

  /** Two sorted runs whose meeting neighbours are in order make one. */
  lemma Glue(s: seq<BlogPost>, j: int, i: int)
    requires 0 <= j <= i < |s|
    requires AdjacentSorted(s, 0, j) && AdjacentSorted(s, j, i + 1)
    requires j > 0 ==> !Less(s[j - 1].date, s[j].date)
    ensures AdjacentSorted(s, 0, i + 1)
  {
  }

  /** `getAllPosts`: the parsed posts, newest first. */
  method GetAllPosts(raw: string) returns (r: Parsed)
    ensures r.Invalid? <==> ParseBlogsFile(raw).Invalid?
    ensures r.Invalid? ==> r == ParseBlogsFile(raw)
    ensures r.Posts? ==> multiset(r.posts) == multiset(ParseBlogsFile(raw).posts) && NewestFirst(r.posts)
  {
    match ParseBlogsFile(raw)
    case Invalid(b) =>
      r := Invalid(b);
    case Posts(ps) =>
      var a := new BlogPost[|ps|](k requires 0 <= k < |ps| => ps[k]);
      assert a[..] == ps;
      SortNewestFirst(a);
      r := Posts(a[..]);
  }

  /** `posts.find(p => p.slug === slug)`. */
  function FindBySlug(posts: seq<BlogPost>, slug: string): (r: Option<BlogPost>)
    ensures r.Some? ==> exists k :: 0 <= k < |posts| && posts[k] == r.value && r.value.slug == slug
                                    && forall j :: 0 <= j < k ==> posts[j].slug != slug
    ensures r.None? <==> forall k :: 0 <= k < |posts| ==> posts[k].slug != slug
    decreases |posts|
  {
    if posts == [] then None
    else if posts[0].slug == slug then Some(posts[0])
    else
      var r := FindBySlug(posts[1..], slug);
      assert forall k :: 1 <= k < |posts| ==> posts[k] == posts[1..][k - 1];
      r
  }

  /** The outcome of `getPostBySlug`: the post, `undefined`, or the parse
      error it lets through. */
  datatype SlugLookup = Found(post: BlogPost) | NotFound | Failed(block: string)

  method GetPostBySlug(raw: string, slug: string) returns (r: SlugLookup)
    ensures r.Failed? <==> ParseBlogsFile(raw).Invalid?
    ensures r.Found? ==> r.post.slug == slug && r.post in ParseBlogsFile(raw).posts
    ensures r.NotFound? <==> ParseBlogsFile(raw).Posts?
                             && forall p :: p in ParseBlogsFile(raw).posts ==> p.slug != slug
  {
    var all := GetAllPosts(raw);
    match all
    case Invalid(b) =>
      r := Failed(b);
    case Posts(ps) =>
      var parsed := ParseBlogsFile(raw).posts;
      assert forall p :: p in ps <==> p in parsed by {
        forall p ensures p in ps <==> p in parsed {
          assert p in ps <==> p in multiset(ps);
          assert p in parsed <==> p in multiset(parsed);
        }
      }
      match FindBySlug(ps, slug)
      case Some(p) =>
        r := Found(p);
      case None =>
        r := NotFound;
  }
}
