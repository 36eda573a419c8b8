/** The WrappedStory model: a user's yearly summary, published under a
    random slug, with view and share counters.

    Str::random(12), now() and config('app.url') are parameters. */
module WrappedStories {
  import opened Common

  /** Length of the slug Str::random(12) generates. */
  const SlugLength := 12
  const WrappedPath := "/wrapped/"

  /** What Str::random(12) returns: twelve ASCII letters and digits. */
  predicate IsRandomSlug(s: string) {
    |s| == SlugLength && forall k :: 0 <= k < |s| ==> IsAsciiAlnum(s[k])
  }

  /** The creating hook on public_slug: a slug PHP reads as false (null, ""
      or "0") is replaced by the random one; any other slug is kept. */
  function SlugOnCreate(slug: Option<string>, random: string): (r: Option<string>)
    ensures PhpTruthy(slug) ==> r == slug
    ensures !PhpTruthy(slug) ==> r == Some(random)
  {
    if PhpTruthy(slug) then slug else Some(random)
  }

  /** After the hook a story always has a usable slug, and running the hook
      again (with any other draw) changes nothing. */
  lemma SlugOnCreateSettles(slug: Option<string>, random: string, random2: string)
    requires IsRandomSlug(random)
    ensures PhpTruthy(SlugOnCreate(slug, random))
    ensures SlugOnCreate(SlugOnCreate(slug, random), random2) == SlugOnCreate(slug, random)
  {
    if !PhpTruthy(slug) {
      assert |random| == 12;
    }
  }

  /** getPublicUrlAttribute: null unless the story is public and its slug
      is truthy; otherwise app_url + "/wrapped/" + slug. */
  function PublicUrl(appUrl: string, isPublic: bool, slug: Option<string>): (r: Option<string>)
    ensures r.Some? <==> isPublic && PhpTruthy(slug)
    ensures r.Some? ==> r.value == appUrl + WrappedPath + slug.value
  {
    if !isPublic || !PhpTruthy(slug) then None else Some(appUrl + WrappedPath + slug.value)
  }

  /** Reading a slug back out of a public URL. */
  function SlugOfUrl(appUrl: string, url: string): (r: Option<string>)
    ensures r.Some? ==> url == appUrl + WrappedPath + r.value
  {
    var prefix := appUrl + WrappedPath;
    if |prefix| <= |url| && url[..|prefix|] == prefix then Some(url[|prefix|..]) else None
  }

  /** The public URL determines the slug: two stories with the same URL
      share their slug, so the unique slug index makes URLs unique. */
  lemma PublicUrlRecoversSlug(appUrl: string, isPublic: bool, slug: Option<string>)
    ensures PublicUrl(appUrl, isPublic, slug).Some? ==>
      SlugOfUrl(appUrl, PublicUrl(appUrl, isPublic, slug).value) == slug
  {
    if PublicUrl(appUrl, isPublic, slug).Some? {
      var url := PublicUrl(appUrl, isPublic, slug).value;
      var prefix := appUrl + WrappedPath;
      assert url == prefix + slug.value;
      assert url[..|prefix|] == prefix;
      assert url[|prefix|..] == slug.value;
    }
  }

  class WrappedStory {
    var userId: string
    var year: int
    var publicSlug: Option<string>
    var isPublic: bool
    var viewCount: nat
    var shareCount: nat
    var generatedAt: Option<int>

    /** A new, unsaved story from create([...]): the counters are fillable,
        and one left out takes the column's default 0. */
    constructor (userId: string, year: int, slug: Option<string>, isPublic: bool, generatedAt: Option<int>,
                 views: Option<nat>, shares: Option<nat>)
      ensures this.userId == userId && this.year == year && publicSlug == slug
      ensures this.isPublic == isPublic && this.generatedAt == generatedAt
      ensures viewCount == if views.Some? then views.value else 0
      ensures shareCount == if shares.Some? then shares.value else 0
    {
      this.userId := userId;
      this.year := year;
      publicSlug := slug;
      this.isPublic := isPublic;
      this.generatedAt := generatedAt;
      viewCount := if views.Some? then views.value else 0;
      shareCount := if shares.Some? then shares.value else 0;
    }

    /** The `creating` hook registered in boot(): fills public_slug and
      generated_at when absent and touches nothing else. */
    method Creating(random: string, now: int)
      requires IsRandomSlug(random)
      modifies this`publicSlug, this`generatedAt
      ensures publicSlug == SlugOnCreate(old(publicSlug), random)
      ensures generatedAt == FillIfAbsent(old(generatedAt), now)
    {
      if !PhpTruthy(publicSlug) {
        publicSlug := Some(random);
      }
      if generatedAt.None? {
        generatedAt := Some(now);
      }
    }

    /** The public_url accessor: present exactly for a public story with a
        truthy slug, and that slug can be read back out of it. */
    function PublicUrlAttribute(appUrl: string): (r: Option<string>)
      reads this
      ensures r.Some? <==> isPublic && PhpTruthy(publicSlug)
      ensures r.Some? ==> SlugOfUrl(appUrl, r.value) == publicSlug
    {
      PublicUrlRecoversSlug(appUrl, isPublic, publicSlug);
      PublicUrl(appUrl, isPublic, publicSlug)
    }

    /** incrementViews: view_count goes up by exactly one; the frame says
        that no other field changes. */
    method IncrementViews()
      modifies this`viewCount
      ensures viewCount == old(viewCount) + 1
    {
      viewCount := viewCount + 1;
    }

    /** incrementShares: share_count goes up by exactly one. */
    method IncrementShares()
      modifies this`shareCount
      ensures shareCount == old(shareCount) + 1
    {
      shareCount := shareCount + 1;
    }
  }

  /** A story created without a slug is published under a URL that names
      its freshly drawn slug. */
  method PublishScenario(appUrl: string, random: string, now: int)
    requires IsRandomSlug(random)
  {
    var story := new WrappedStory("u1", 2025, None, false, None, None, None);
    story.Creating(random, now);
    assert story.publicSlug == Some(random) && story.generatedAt == Some(now);
    assert story.PublicUrlAttribute(appUrl).None?;
    story.isPublic := true;
    SlugOnCreateSettles(None, random, random);
    assert story.PublicUrlAttribute(appUrl) == Some(appUrl + WrappedPath + random);
    story.IncrementViews();
    story.IncrementViews();
    story.IncrementShares();
    assert story.viewCount == 2 && story.shareCount == 1;
  }

  // ---------------------------------------------------------------------
  // The wrapped_stories table
  // ---------------------------------------------------------------------

  datatype StoryRow = StoryRow(userId: string, year: int, publicSlug: Option<string>)

  /** unique(['user_id', 'year']) and the unique, nullable public_slug (two
      NULL slugs do not collide). */
  ghost predicate StoriesUnique(rows: seq<StoryRow>) {
    forall i, j :: 0 <= i < j < |rows| ==>
      && (rows[i].userId, rows[i].year) != (rows[j].userId, rows[j].year)
      && (rows[i].publicSlug.Some? ==> rows[i].publicSlug != rows[j].publicSlug)
  }

  predicate Collides(a: StoryRow, b: StoryRow) {
    (a.userId == b.userId && a.year == b.year) || (a.publicSlug.Some? && a.publicSlug == b.publicSlug)
  }

  /** An INSERT: rejected when the user already has a story for that year
      or the slug is taken. */
  function InsertStory(rows: seq<StoryRow>, row: StoryRow): (r: Option<seq<StoryRow>>)
    ensures r.None? <==> exists i :: 0 <= i < |rows| && Collides(row, rows[i])
    ensures r.Some? ==> r.value == rows + [row]
    ensures StoriesUnique(rows) && r.Some? ==> StoriesUnique(r.value)
  {
    if exists i :: 0 <= i < |rows| && Collides(row, rows[i]) then None else Some(rows + [row])
  }
}
