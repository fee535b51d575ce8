/** Merging posts that Telegram split into several messages
    (`round_to_nearest_minute` and `consolidate_media` in operations.rs).

    Within each album, posts whose date and forward date fall in the same
    minutes are grouped; each group is folded into its first post, which
    collects the group's photos and videos and the last non-empty caption;
    the album's posts are then sorted by their date strings.

    Parsing a stored date string into seconds since the epoch is the
    parameter `seconds`. The source groups in a hash map, whose iteration
    order is unspecified; the model groups in order of first occurrence.
    The one-pass properties below (sorted, one post per key, each the fold
    of its key's posts, files kept) hold whatever that order is;
    `ConsolidatePostsIdempotent` and `ConsolidateMediaIdempotent` rely on
    it. */
module Consolidation {
  import opened Base
  import opened Errors
  import opened Text
  import opened Records

  /** Rust's `%` on `i64`: the remainder of `a` by `b` after a quotient
      truncated toward zero, so it takes the sign of `a`. */
  function RustRem(a: int, b: int): (r: int)
    requires b > 0
    ensures exists q :: a == q * b + r
    ensures a >= 0 ==> 0 <= r < b
    ensures a < 0 ==> -b < r <= 0
  {
    var q := if a >= 0 then a / b else -((-a) / b);
    var r := if a >= 0 then a % b else -((-a) % b);
    assert a == q * b + r;
    r
  }

  /** `round_to_nearest_minute`: drops the seconds past the minute. Despite
      its name it truncates toward zero rather than rounding. */
  function TruncateToMinute(t: int): (r: int)
    ensures r % 60 == 0
    ensures t >= 0 ==> 0 <= r <= t && t - r < 60
    ensures t < 0 ==> t <= r <= 0 && r - t < 60
  {
    t - RustRem(t, 60)
  }

  lemma TruncateToMinuteIdempotent(t: int)
    ensures TruncateToMinute(TruncateToMinute(t)) == TruncateToMinute(t)
  {
  }

  /** Two non-negative timestamps truncate alike exactly when they lie in
      the same minute. */
  lemma TruncateToMinuteSameMinute(a: int, b: int)
    requires a >= 0 && b >= 0
    ensures TruncateToMinute(a) == TruncateToMinute(b) <==> a / 60 == b / 60
  {
  }

  /** The grouping key of a post: its date and forward date, truncated to
      the minute. */
  datatype Key = Key(date: int, forwardDate: int)

  function KeyOf(p: Post, seconds: string -> int): Key {
    Key(TruncateToMinute(seconds(p.date)), TruncateToMinute(seconds(p.forwardDate)))
  }

  function KeySet(posts: seq<Post>, seconds: string -> int): set<Key> {
    set p | p in posts :: KeyOf(p, seconds)
  }

  /** No two posts share a key. */
  predicate DistinctKeys(posts: seq<Post>, seconds: string -> int) {
    forall i, j :: 0 <= i < j < |posts| ==> KeyOf(posts[i], seconds) != KeyOf(posts[j], seconds)
  }

  /** Whether a post carries key `k`. */
  function HasKey(k: Key, seconds: string -> int): Post -> bool {
    q => KeyOf(q, seconds) == k
  }

  /** Reference definition of a group: the posts with key `k`, in order. */
  function WithKey(posts: seq<Post>, k: Key, seconds: string -> int): (r: seq<Post>)
    ensures forall q :: q in r ==> q in posts && KeyOf(q, seconds) == k
  {
    FilterMembers(posts, HasKey(k, seconds));
    Filter(posts, HasKey(k, seconds))
  }

  /** A key no post carries has an empty group. */
  lemma {:induction false} WithKeyAbsent(posts: seq<Post>, k: Key, seconds: string -> int)
    requires k !in KeySet(posts, seconds)
    ensures WithKey(posts, k, seconds) == []
    decreases |posts|
  {
    if |posts| > 0 {
      var init := posts[..|posts| - 1];
      assert KeySet(init, seconds) <= KeySet(posts, seconds) by {
        forall p | p in init ensures p in posts { }
      }
      WithKeyAbsent(init, k, seconds);
      assert KeyOf(posts[|posts| - 1], seconds) in KeySet(posts, seconds);
    }
  }

  // ----- Grouping -----

  datatype Group = Group(key: Key, members: seq<Post>)

  function GroupKeys(groups: seq<Group>): set<Key> {
    set g | g in groups :: g.key
  }

  /** No two groups share a key. */
  predicate DistinctGroupKeys(groups: seq<Group>) {
    forall i, j :: 0 <= i < j < |groups| ==> groups[i].key != groups[j].key
  }

  /** Every group holds exactly the posts with its key, in their order. */
  predicate MembersWithKey(groups: seq<Group>, posts: seq<Post>, seconds: string -> int) {
    forall i :: 0 <= i < |groups| ==> groups[i].members == WithKey(posts, groups[i].key, seconds)
  }

  predicate NonEmptyGroups(groups: seq<Group>) {
    forall i :: 0 <= i < |groups| ==> |groups[i].members| > 0
  }

  /** What the hash map of groups holds after `posts` were inserted. */
  predicate GroupsOf(groups: seq<Group>, posts: seq<Post>, seconds: string -> int) {
    && DistinctGroupKeys(groups)
    && MembersWithKey(groups, posts, seconds)
    && NonEmptyGroups(groups)
    && GroupKeys(groups) == KeySet(posts, seconds)
  }

  function FindGroup(groups: seq<Group>, k: Key): (i: nat)
    ensures i <= |groups|
    ensures i < |groups| ==> groups[i].key == k
    ensures forall j :: 0 <= j < i ==> groups[j].key != k
  {
    Position(groups, (g: Group) => g.key == k)
  }

  /** `entry(key).or_insert_with(Vec::new).push(post)`. */
  function AddToGroups(groups: seq<Group>, p: Post, seconds: string -> int): seq<Group> {
    var k := KeyOf(p, seconds);
    var i := FindGroup(groups, k);
    if i < |groups| then groups[i := Group(k, groups[i].members + [p])]
    else groups + [Group(k, [p])]
  }

  lemma WithKeySnoc(posts: seq<Post>, p: Post, k: Key, seconds: string -> int)
    ensures WithKey(posts + [p], k, seconds)
            == WithKey(posts, k, seconds) + (if KeyOf(p, seconds) == k then [p] else [])
  {
    assert (posts + [p])[..|posts|] == posts;
  }

  lemma KeySetSnoc(posts: seq<Post>, p: Post, seconds: string -> int)
    ensures KeySet(posts + [p], seconds) == KeySet(posts, seconds) + {KeyOf(p, seconds)}
  {
    var all := posts + [p];
    forall q | q in all ensures q in posts || q == p { }
    forall q | q in posts ensures q in all { }
    assert p in all;
  }

  lemma SameGroupKeys(a: seq<Group>, b: seq<Group>)
    requires |a| == |b|
    requires forall j :: 0 <= j < |a| ==> a[j].key == b[j].key
    ensures GroupKeys(a) == GroupKeys(b)
  {
    forall g | g in a ensures g.key in GroupKeys(b) {
      var j :| 0 <= j < |a| && a[j] == g;
      assert b[j] in b;
    }
    forall g | g in b ensures g.key in GroupKeys(a) {
      var j :| 0 <= j < |b| && b[j] == g;
      assert a[j] in a;
    }
  }

  lemma AddToGroupsDistinct(groups: seq<Group>, p: Post, seconds: string -> int)
    requires DistinctGroupKeys(groups)
    ensures DistinctGroupKeys(AddToGroups(groups, p, seconds))
  {
    var i := FindGroup(groups, KeyOf(p, seconds));
    var after := AddToGroups(groups, p, seconds);
    if i < |groups| {
      assert forall j :: 0 <= j < |after| ==> after[j].key == groups[j].key;
    } else {
      assert forall j :: 0 <= j < |groups| ==> after[j] == groups[j];
    }
  }

  lemma AddToGroupsMembersExisting(groups: seq<Group>, posts: seq<Post>, p: Post, seconds: string -> int)
    requires DistinctGroupKeys(groups) && MembersWithKey(groups, posts, seconds)
    requires FindGroup(groups, KeyOf(p, seconds)) < |groups|
    ensures MembersWithKey(AddToGroups(groups, p, seconds), posts + [p], seconds)
  {
    var i := FindGroup(groups, KeyOf(p, seconds));
    var after := AddToGroups(groups, p, seconds);
    forall j | 0 <= j < |after|
      ensures after[j].members == WithKey(posts + [p], after[j].key, seconds)
    {
      WithKeySnoc(posts, p, after[j].key, seconds);
      if j != i {
        assert after[j] == groups[j];
      }
    }
  }

  lemma AddToGroupsMembersNew(groups: seq<Group>, posts: seq<Post>, p: Post, seconds: string -> int)
    requires MembersWithKey(groups, posts, seconds) && GroupKeys(groups) == KeySet(posts, seconds)
    requires FindGroup(groups, KeyOf(p, seconds)) == |groups|
    ensures MembersWithKey(AddToGroups(groups, p, seconds), posts + [p], seconds)
  {
    var k := KeyOf(p, seconds);
    var after := AddToGroups(groups, p, seconds);
    assert k !in GroupKeys(groups) by {
      forall g | g in groups ensures g.key != k {
        var j :| 0 <= j < |groups| && groups[j] == g;
      }
    }
    WithKeyAbsent(posts, k, seconds);
    forall j | 0 <= j < |after|
      ensures after[j].members == WithKey(posts + [p], after[j].key, seconds)
    {
      WithKeySnoc(posts, p, after[j].key, seconds);
      if j < |groups| {
        assert after[j] == groups[j];
      }
    }
  }

  lemma AddToGroupsNonEmpty(groups: seq<Group>, p: Post, seconds: string -> int)
    requires NonEmptyGroups(groups)
    ensures NonEmptyGroups(AddToGroups(groups, p, seconds))
  {
    var i := FindGroup(groups, KeyOf(p, seconds));
    var after := AddToGroups(groups, p, seconds);
    forall j | 0 <= j < |after|
      ensures |after[j].members| > 0
    {
      if j < |groups| && j != i {
        assert after[j] == groups[j];
      }
    }
  }

  lemma AddToGroupsKeySet(groups: seq<Group>, posts: seq<Post>, p: Post, seconds: string -> int)
    requires GroupKeys(groups) == KeySet(posts, seconds)
    ensures GroupKeys(AddToGroups(groups, p, seconds)) == KeySet(posts + [p], seconds)
  {
    var k := KeyOf(p, seconds);
    var i := FindGroup(groups, k);
    var after := AddToGroups(groups, p, seconds);
    KeySetSnoc(posts, p, seconds);
    if i < |groups| {
      SameGroupKeys(after, groups);
      assert groups[i] in groups;
    } else {
      forall g | g in after ensures g in groups || g == Group(k, [p]) { }
      forall g | g in groups ensures g in after { }
      assert Group(k, [p]) in after;
    }
  }

  /** Inserting one more post into the groups of `posts` gives the groups
      of `posts + [p]`. */
  lemma AddToGroupsKeepsGroupsOf(groups: seq<Group>, posts: seq<Post>, p: Post, seconds: string -> int)
    requires GroupsOf(groups, posts, seconds)
    ensures GroupsOf(AddToGroups(groups, p, seconds), posts + [p], seconds)
  {
    AddToGroupsDistinct(groups, p, seconds);
    if FindGroup(groups, KeyOf(p, seconds)) < |groups| {
      AddToGroupsMembersExisting(groups, posts, p, seconds);
    } else {
      AddToGroupsMembersNew(groups, posts, p, seconds);
    }
    AddToGroupsNonEmpty(groups, p, seconds);
    AddToGroupsKeySet(groups, posts, p, seconds);
  }

  /** The groups built by scanning `posts` in order. */
  function GroupPosts(posts: seq<Post>, seconds: string -> int): seq<Group>
    decreases |posts|
  {
    if |posts| == 0 then []
    else AddToGroups(GroupPosts(posts[..|posts| - 1], seconds), posts[|posts| - 1], seconds)
  }

  /** Grouping yields one group per distinct key, holding that key's posts
      in their original order. */
  lemma {:induction false} GroupPostsGroupsOf(posts: seq<Post>, seconds: string -> int)
    ensures GroupsOf(GroupPosts(posts, seconds), posts, seconds)
    decreases |posts|
  {
    if |posts| > 0 {
      var init := posts[..|posts| - 1];
      GroupPostsGroupsOf(init, seconds);
      assert init + [posts[|posts| - 1]] == posts;
      AddToGroupsKeepsGroupsOf(GroupPosts(init, seconds), init, posts[|posts| - 1], seconds);
    }
  }

  // ----- Folding a group -----

  /** `text` is the last non-empty caption after the first post, or the
      first post's caption when every later one is empty. */
  predicate LastCaption(posts: seq<Post>, text: string) {
    && |posts| > 0
    && ((forall k :: 1 <= k < |posts| ==> posts[k].text == "") ==> text == posts[0].text)
    && (forall k :: 1 <= k < |posts| && posts[k].text != "" && (forall j :: k < j < |posts| ==> posts[j].text == "")
          ==> text == posts[k].text)
  }

  /** `q` is the fold of `group`: it carries the first post's id and dates,
      all the group's media in order, and the last non-empty caption. */
  predicate MergedFrom(q: Post, group: seq<Post>) {
    && |group| > 0
    && q.id == group[0].id
    && q.date == group[0].date
    && q.forwardDate == group[0].forwardDate
    && q.photos == AllFiles(group, Photo)
    && q.videos == AllFiles(group, FileType.Video)
    && LastCaption(group, q.text)
  }

  /** One step of the fold: the accumulated post takes `p`'s media and, when
      non-empty, its caption. */
  function Absorb(acc: Post, p: Post): Post {
    acc.(photos := acc.photos + p.photos,
         videos := acc.videos + p.videos,
         text := if p.text != "" then p.text else acc.text)
  }

  /** Absorbing one more post keeps `LastCaption` true of the fold. */
  lemma AbsorbCaption(init: seq<Post>, last: Post, text: string)
    requires LastCaption(init, text)
    ensures LastCaption(init + [last], if last.text != "" then last.text else text)
  {
    var posts := init + [last];
    var n := |posts|;
    assert posts[n - 1] == last;
    assert forall k :: 0 <= k < |init| ==> posts[k] == init[k];
    if last.text == "" {
      forall k | 1 <= k < n && posts[k].text != "" && (forall j :: k < j < n ==> posts[j].text == "")
        ensures text == posts[k].text
      {
        assert k < |init|;
        assert forall j :: k < j < |init| ==> init[j].text == "";
      }
    }
  }

  /** The fold over a group, starting from `None` as in the source. */
  function Merge(posts: seq<Post>): (r: Option<Post>)
    ensures r.None? <==> |posts| == 0
    decreases |posts|
  {
    if |posts| == 0 then None
    else
      match Merge(posts[..|posts| - 1])
      case None => Some(posts[|posts| - 1])
      case Some(acc) => Some(Absorb(acc, posts[|posts| - 1]))
  }

  /** The fold of a non-empty group is `MergedFrom` it. */
  lemma {:induction false} MergeIsMergedFrom(posts: seq<Post>)
    requires |posts| > 0
    ensures MergedFrom(Merge(posts).value, posts)
    decreases |posts|
  {
    var init := posts[..|posts| - 1];
    var last := posts[|posts| - 1];
    assert posts == init + [last];
    AllFilesSnoc(init, last, Photo);
    AllFilesSnoc(init, last, FileType.Video);
    if |init| > 0 {
      MergeIsMergedFrom(init);
      AbsorbCaption(init, last, Merge(init).value.text);
    }
  }

  /** `flat_map` of the fold over the groups. */
  function MergeGroups(groups: seq<Group>): (r: seq<Post>)
    ensures |r| <= |groups|
    ensures NonEmptyGroups(groups) ==>
              |r| == |groups| && forall i :: 0 <= i < |groups| ==> r[i] == Merge(groups[i].members).value
    decreases |groups|
  {
    if |groups| == 0 then []
    else
      var init := groups[..|groups| - 1];
      var merged := MergeGroups(init);
      assert forall i :: 0 <= i < |init| ==> init[i] == groups[i];
      match Merge(groups[|groups| - 1].members)
      case None => merged
      case Some(p) => merged + [p]
  }

  // ----- Sorting by date string -----

  /** Non-decreasing by the `date` string. */
  predicate SortedByDate(posts: seq<Post>) {
    forall i, j :: 0 <= i < j < |posts| ==> LexLe(posts[i].date, posts[j].date)
  }

  /** Where `p` goes: before the first post not earlier than it. */
  function InsertPos(p: Post, sorted: seq<Post>): (k: nat)
    ensures k <= |sorted|
    ensures forall j :: 0 <= j < k ==> !LexLe(p.date, sorted[j].date)
    ensures k < |sorted| ==> LexLe(p.date, sorted[k].date)
  {
    Position(sorted, (q: Post) => LexLe(p.date, q.date))
  }

  function InsertByDate(p: Post, sorted: seq<Post>): (r: seq<Post>)
    ensures |r| == |sorted| + 1
  {
    var k := InsertPos(p, sorted);
    sorted[..k] + [p] + sorted[k..]
  }

  /** Inserting adds exactly `p` to the posts. */
  lemma InsertByDatePermutes(p: Post, sorted: seq<Post>)
    ensures multiset(InsertByDate(p, sorted)) == multiset(sorted) + multiset{p}
  {
    var k := InsertPos(p, sorted);
    assert sorted == sorted[..k] + sorted[k..];
  }

  /** The posts before the insertion point are not later than `p`, and
      those from it on are not earlier. */
  lemma InsertPosBounds(p: Post, sorted: seq<Post>)
    requires SortedByDate(sorted)
    ensures var k := InsertPos(p, sorted);
            && (forall i :: 0 <= i < k ==> LexLe(sorted[i].date, p.date))
            && (forall j :: k <= j < |sorted| ==> LexLe(p.date, sorted[j].date))
  {
    var k := InsertPos(p, sorted);
    if k > 0 {
      LexLeTotal(p.date, sorted[k - 1].date);
      forall i | 0 <= i < k
        ensures LexLe(sorted[i].date, p.date)
      {
        if i < k - 1 {
          LexLeTransitive(sorted[i].date, sorted[k - 1].date, p.date);
        }
      }
    }
    forall j | k < j < |sorted|
      ensures LexLe(p.date, sorted[j].date)
    {
      LexLeTransitive(p.date, sorted[k].date, sorted[j].date);
    }
  }

  lemma InsertByDateSorted(p: Post, sorted: seq<Post>)
    requires SortedByDate(sorted)
    ensures SortedByDate(InsertByDate(p, sorted))
  {
    var k := InsertPos(p, sorted);
    var r := InsertByDate(p, sorted);
    InsertPosBounds(p, sorted);
    assert forall i :: 0 <= i < k ==> r[i] == sorted[i];
    assert r[k] == p;
    assert forall i :: k < i < |r| ==> r[i] == sorted[i - 1];
    forall i, j | 0 <= i < j < |r|
      ensures LexLe(r[i].date, r[j].date)
    {
      if i < k && k < j {
        LexLeTransitive(sorted[i].date, p.date, sorted[j - 1].date);
      }
    }
  }

  /** Stable sort by date string (Rust's `sort_by` on `date`). */
  function SortByDate(posts: seq<Post>): (r: seq<Post>)
    ensures |r| == |posts|
    decreases |posts|
  {
    if |posts| == 0 then []
    else InsertByDate(posts[0], SortByDate(posts[1..]))
  }

  lemma {:induction false} SortByDateSorted(posts: seq<Post>)
    ensures SortedByDate(SortByDate(posts))
    decreases |posts|
  {
    if |posts| > 0 {
      SortByDateSorted(posts[1..]);
      InsertByDateSorted(posts[0], SortByDate(posts[1..]));
    }
  }

  /** The sort returns a permutation of its input. */
  lemma {:induction false} SortByDatePermutes(posts: seq<Post>)
    ensures multiset(SortByDate(posts)) == multiset(posts)
    decreases |posts|
  {
    if |posts| > 0 {
      SortByDatePermutes(posts[1..]);
      InsertByDatePermutes(posts[0], SortByDate(posts[1..]));
      assert posts == [posts[0]] + posts[1..];
    }
  }

  lemma SortedTail(posts: seq<Post>)
    requires SortedByDate(posts) && |posts| > 0
    ensures SortedByDate(posts[1..])
  {
    assert forall i :: 0 <= i < |posts| - 1 ==> posts[1..][i] == posts[i + 1];
  }

  /** A post not later than the head of a sorted list goes in front. */
  lemma InsertAtFront(p: Post, sorted: seq<Post>)
    requires |sorted| == 0 || LexLe(p.date, sorted[0].date)
    ensures InsertByDate(p, sorted) == [p] + sorted
  {
    assert InsertPos(p, sorted) == 0;
    assert sorted[..0] == [] && sorted[0..] == sorted;
  }

  /** Sorting a sorted list returns it unchanged. */
  lemma {:induction false} SortByDateOfSorted(posts: seq<Post>)
    requires SortedByDate(posts)
    ensures SortByDate(posts) == posts
    decreases |posts|
  {
    if |posts| > 0 {
      var tail := posts[1..];
      SortedTail(posts);
      SortByDateOfSorted(tail);
      InsertAtFront(posts[0], tail);
      assert posts == [posts[0]] + tail;
    }
  }

  // ----- Media is neither lost nor duplicated -----

  /** The files of one kind of every group, group after group. */
  function GroupFiles(groups: seq<Group>, kind: FileType): seq<string>
    decreases |groups|
  {
    if |groups| == 0 then []
    else GroupFiles(groups[..|groups| - 1], kind) + AllFiles(groups[|groups| - 1].members, kind)
  }

  lemma AllFilesSnoc(posts: seq<Post>, p: Post, kind: FileType)
    ensures AllFiles(posts + [p], kind) == AllFiles(posts, kind) + Files(p, kind)
  {
    assert (posts + [p])[..|posts|] == posts;
  }

  lemma {:induction false} GroupFilesConcat(a: seq<Group>, b: seq<Group>, kind: FileType)
    ensures GroupFiles(a + b, kind) == GroupFiles(a, kind) + GroupFiles(b, kind)
    decreases |b|
  {
    if |b| == 0 {
      assert a + b == a;
    } else {
      assert (a + b)[..|a + b| - 1] == a + b[..|b| - 1];
      GroupFilesConcat(a, b[..|b| - 1], kind);
    }
  }

  /** The files of the groups around index `i`, and of group `i` itself. */
  lemma GroupFilesSplit(groups: seq<Group>, i: nat, kind: FileType)
    requires i < |groups|
    ensures GroupFiles(groups, kind)
            == GroupFiles(groups[..i], kind) + AllFiles(groups[i].members, kind) + GroupFiles(groups[i + 1..], kind)
  {
    var prefix := groups[..i];
    var suffix := groups[i + 1..];
    assert groups == prefix + [groups[i]] + suffix;
    GroupFilesConcat(prefix + [groups[i]], suffix, kind);
    GroupFilesConcat(prefix, [groups[i]], kind);
    assert [groups[i]][..0] == [];
  }

  /** Appending `p` to group `i` adds exactly `p`'s files. */
  lemma UpdateGroupFiles(groups: seq<Group>, i: nat, g: Group, p: Post, kind: FileType)
    requires i < |groups| && g.members == groups[i].members + [p]
    ensures multiset(GroupFiles(groups[i := g], kind)) == multiset(GroupFiles(groups, kind)) + multiset(Files(p, kind))
  {
    var after := groups[i := g];
    GroupFilesSplit(groups, i, kind);
    GroupFilesSplit(after, i, kind);
    assert after[..i] == groups[..i] && after[i + 1..] == groups[i + 1..];
    AllFilesSnoc(groups[i].members, p, kind);
    var front := GroupFiles(groups[..i], kind);
    var back := GroupFiles(groups[i + 1..], kind);
    var middle := AllFiles(groups[i].members, kind);
    assert GroupFiles(after, kind) == front + (middle + Files(p, kind)) + back;
    assert GroupFiles(groups, kind) == front + middle + back;
  }

  /** A new group holding only `p` adds exactly `p`'s files. */
  lemma AppendGroupFiles(groups: seq<Group>, k: Key, p: Post, kind: FileType)
    ensures GroupFiles(groups + [Group(k, [p])], kind) == GroupFiles(groups, kind) + Files(p, kind)
  {
    assert (groups + [Group(k, [p])])[..|groups|] == groups;
    AllFilesSnoc([], p, kind);
    assert [] + [p] == [p];
  }

  lemma AddToGroupsFiles(groups: seq<Group>, p: Post, seconds: string -> int, kind: FileType)
    ensures multiset(GroupFiles(AddToGroups(groups, p, seconds), kind)) == multiset(GroupFiles(groups, kind)) + multiset(Files(p, kind))
  {
    var k := KeyOf(p, seconds);
    var i := FindGroup(groups, k);
    if i < |groups| {
      UpdateGroupFiles(groups, i, Group(k, groups[i].members + [p]), p, kind);
    } else {
      AppendGroupFiles(groups, k, p, kind);
    }
  }

  lemma {:induction false} GroupPostsKeepsFiles(posts: seq<Post>, seconds: string -> int, kind: FileType)
    ensures multiset(GroupFiles(GroupPosts(posts, seconds), kind)) == multiset(AllFiles(posts, kind))
    decreases |posts|
  {
    if |posts| > 0 {
      var init := posts[..|posts| - 1];
      var p := posts[|posts| - 1];
      GroupPostsKeepsFiles(init, seconds, kind);
      AddToGroupsFiles(GroupPosts(init, seconds), p, seconds, kind);
    }
  }

  lemma {:induction false} MergeGroupsFiles(groups: seq<Group>, kind: FileType)
    requires NonEmptyGroups(groups)
    ensures AllFiles(MergeGroups(groups), kind) == GroupFiles(groups, kind)
    decreases |groups|
  {
    if |groups| > 0 {
      var init := groups[..|groups| - 1];
      var last := groups[|groups| - 1].members;
      MergeGroupsFiles(init, kind);
      MergeIsMergedFrom(last);
      AllFilesSnoc(MergeGroups(init), Merge(last).value, kind);
    }
  }

  lemma AllFilesInsert(p: Post, sorted: seq<Post>, kind: FileType)
    ensures multiset(AllFiles(InsertByDate(p, sorted), kind)) == multiset(AllFiles(sorted, kind)) + multiset(Files(p, kind))
  {
    var k := InsertPos(p, sorted);
    var front := sorted[..k];
    var back := sorted[k..];
    assert sorted == front + back;
    assert InsertByDate(p, sorted) == (front + [p]) + back;
    AllFilesConcat(front + [p], back, kind);
    AllFilesSnoc(front, p, kind);
    AllFilesConcat(front, back, kind);
  }

  lemma AllFilesCons(p: Post, posts: seq<Post>, kind: FileType)
    ensures AllFiles([p] + posts, kind) == Files(p, kind) + AllFiles(posts, kind)
  {
    AllFilesConcat([p], posts, kind);
    assert [p][..0] == [];
  }

  lemma {:induction false} SortByDateKeepsFiles(posts: seq<Post>, kind: FileType)
    ensures multiset(AllFiles(SortByDate(posts), kind)) == multiset(AllFiles(posts, kind))
    decreases |posts|
  {
    if |posts| > 0 {
      var p := posts[0];
      var tail := posts[1..];
      var rest := SortByDate(tail);
      assert posts == [p] + tail;
      calc {
        multiset(AllFiles(SortByDate(posts), kind));
        multiset(AllFiles(InsertByDate(p, rest), kind));
        { AllFilesInsert(p, rest, kind); }
        multiset(AllFiles(rest, kind)) + multiset(Files(p, kind));
        { SortByDateKeepsFiles(tail, kind); }
        multiset(AllFiles(tail, kind)) + multiset(Files(p, kind));
        multiset(Files(p, kind) + AllFiles(tail, kind));
        { AllFilesCons(p, tail, kind); }
        multiset(AllFiles(posts, kind));
      }
    }
  }

  lemma InsertByDateKeepsDistinctKeys(p: Post, sorted: seq<Post>, seconds: string -> int)
    requires DistinctKeys(sorted, seconds)
    requires forall q :: q in sorted ==> KeyOf(q, seconds) != KeyOf(p, seconds)
    ensures DistinctKeys(InsertByDate(p, sorted), seconds)
  {
    var k := InsertPos(p, sorted);
    var r := InsertByDate(p, sorted);
    assert forall i :: 0 <= i < k ==> r[i] == sorted[i];
    assert r[k] == p;
    assert forall i :: k < i < |r| ==> r[i] == sorted[i - 1];
    forall i, j | 0 <= i < j < |r|
      ensures KeyOf(r[i], seconds) != KeyOf(r[j], seconds)
    {
      if i == k {
        assert sorted[j - 1] in sorted;
      } else if j == k {
        assert sorted[i] in sorted;
      } else {
        var i' := if i < k then i else i - 1;
        var j' := if j < k then j else j - 1;
        assert r[i] == sorted[i'] && r[j] == sorted[j'] && i' < j';
      }
    }
  }

  lemma DistinctKeysTail(posts: seq<Post>, seconds: string -> int)
    requires DistinctKeys(posts, seconds) && |posts| > 0
    ensures DistinctKeys(posts[1..], seconds)
    ensures forall q :: q in posts[1..] ==> KeyOf(q, seconds) != KeyOf(posts[0], seconds)
  {
    var tail := posts[1..];
    assert forall i :: 0 <= i < |tail| ==> tail[i] == posts[i + 1];
    forall q | q in tail
      ensures KeyOf(q, seconds) != KeyOf(posts[0], seconds)
    {
      var j :| 0 <= j < |tail| && tail[j] == q;
    }
  }

  /** Sorting cannot make two posts share a key. */
  lemma {:induction false} SortByDateKeepsDistinctKeys(posts: seq<Post>, seconds: string -> int)
    requires DistinctKeys(posts, seconds)
    ensures DistinctKeys(SortByDate(posts), seconds)
    decreases |posts|
  {
    if |posts| > 0 {
      var p := posts[0];
      var tail := posts[1..];
      var rest := SortByDate(tail);
      DistinctKeysTail(posts, seconds);
      SortByDateKeepsDistinctKeys(tail, seconds);
      SortByDatePermutes(tail);
      forall q | q in rest
        ensures KeyOf(q, seconds) != KeyOf(p, seconds)
      {
        assert q in multiset(rest);
      }
      InsertByDateKeepsDistinctKeys(p, rest, seconds);
    }
  }

  // ----- One album -----

  /** The posts of one album after consolidation. */
  function ConsolidatePosts(posts: seq<Post>, seconds: string -> int): seq<Post> {
    SortByDate(MergeGroups(GroupPosts(posts, seconds)))
  }

  /** Each merged post is the fold of its group and keeps the group's key. */
  lemma MergedKeys(posts: seq<Post>, seconds: string -> int)
    ensures var groups := GroupPosts(posts, seconds);
            var merged := MergeGroups(groups);
            && GroupsOf(groups, posts, seconds)
            && |merged| == |groups|
            && forall i :: 0 <= i < |merged| ==>
                 KeyOf(merged[i], seconds) == groups[i].key && MergedFrom(merged[i], groups[i].members)
  {
    var groups := GroupPosts(posts, seconds);
    var merged := MergeGroups(groups);
    GroupPostsGroupsOf(posts, seconds);
    forall i | 0 <= i < |merged|
      ensures KeyOf(merged[i], seconds) == groups[i].key && MergedFrom(merged[i], groups[i].members)
    {
      MergeIsMergedFrom(groups[i].members);
      var first := groups[i].members[0];
      assert first in WithKey(posts, groups[i].key, seconds);
      assert merged[i].date == first.date && merged[i].forwardDate == first.forwardDate;
    }
  }

  lemma MergedKeySet(posts: seq<Post>, seconds: string -> int)
    ensures KeySet(MergeGroups(GroupPosts(posts, seconds)), seconds) == KeySet(posts, seconds)
  {
    var groups := GroupPosts(posts, seconds);
    var merged := MergeGroups(groups);
    MergedKeys(posts, seconds);
    forall q | q in merged ensures KeyOf(q, seconds) in GroupKeys(groups) {
      var i :| 0 <= i < |merged| && merged[i] == q;
      assert groups[i] in groups;
    }
    forall g | g in groups ensures g.key in KeySet(merged, seconds) {
      var i :| 0 <= i < |groups| && groups[i] == g;
      assert merged[i] in merged;
    }
  }

  lemma MergedFromGroups(posts: seq<Post>, seconds: string -> int)
    ensures var merged := MergeGroups(GroupPosts(posts, seconds));
            forall q :: q in merged ==> MergedFrom(q, WithKey(posts, KeyOf(q, seconds), seconds))
  {
    var groups := GroupPosts(posts, seconds);
    var merged := MergeGroups(groups);
    MergedKeys(posts, seconds);
    forall q | q in merged
      ensures MergedFrom(q, WithKey(posts, KeyOf(q, seconds), seconds))
    {
      var i :| 0 <= i < |merged| && merged[i] == q;
      assert groups[i].members == WithKey(posts, groups[i].key, seconds);
    }
  }

  /** Before sorting: one merged post per key, each the fold of its key's
      posts. */
  lemma MergedPostsFaithful(posts: seq<Post>, seconds: string -> int)
    ensures var merged := MergeGroups(GroupPosts(posts, seconds));
            && DistinctKeys(merged, seconds)
            && KeySet(merged, seconds) == KeySet(posts, seconds)
            && forall q :: q in merged ==> MergedFrom(q, WithKey(posts, KeyOf(q, seconds), seconds))
  {
    MergedKeys(posts, seconds);
    MergedKeySet(posts, seconds);
    MergedFromGroups(posts, seconds);
  }

  /** An album's posts come out sorted by date string. */
  lemma ConsolidatePostsSorted(posts: seq<Post>, seconds: string -> int)
    ensures SortedByDate(ConsolidatePosts(posts, seconds))
  {
    SortByDateSorted(MergeGroups(GroupPosts(posts, seconds)));
  }

  /** One post per key of the old posts, and no other key. */
  lemma ConsolidatePostsKeys(posts: seq<Post>, seconds: string -> int)
    ensures DistinctKeys(ConsolidatePosts(posts, seconds), seconds)
    ensures KeySet(ConsolidatePosts(posts, seconds), seconds) == KeySet(posts, seconds)
  {
    var merged := MergeGroups(GroupPosts(posts, seconds));
    var r := SortByDate(merged);
    MergedPostsFaithful(posts, seconds);
    SortByDateKeepsDistinctKeys(merged, seconds);
    SortByDatePermutes(merged);
    assert KeySet(r, seconds) == KeySet(merged, seconds) by {
      forall q | q in r ensures q in merged { assert q in multiset(r); }
      forall q | q in merged ensures q in r { assert q in multiset(merged); }
    }
  }

  /** Every new post is the fold of the old posts with its key. */
  lemma ConsolidatePostsMerged(posts: seq<Post>, seconds: string -> int)
    ensures var r := ConsolidatePosts(posts, seconds);
            forall q :: q in r ==> MergedFrom(q, WithKey(posts, KeyOf(q, seconds), seconds))
  {
    var merged := MergeGroups(GroupPosts(posts, seconds));
    var r := SortByDate(merged);
    MergedFromGroups(posts, seconds);
    SortByDatePermutes(merged);
    forall q | q in r
      ensures MergedFrom(q, WithKey(posts, KeyOf(q, seconds), seconds))
    {
      assert q in multiset(r);
    }
  }

  /** No photo or video is lost or duplicated. */
  lemma ConsolidatePostsFiles(posts: seq<Post>, seconds: string -> int, kind: FileType)
    ensures multiset(AllFiles(ConsolidatePosts(posts, seconds), kind)) == multiset(AllFiles(posts, kind))
  {
    var groups := GroupPosts(posts, seconds);
    GroupPostsGroupsOf(posts, seconds);
    SortByDateKeepsFiles(MergeGroups(groups), kind);
    MergeGroupsFiles(groups, kind);
    GroupPostsKeepsFiles(posts, seconds, kind);
  }

  // ----- Consolidating twice -----

  /** With distinct keys every post forms a group of its own. */
  lemma {:induction false} GroupPostsDistinct(posts: seq<Post>, seconds: string -> int)
    requires DistinctKeys(posts, seconds)
    ensures var groups := GroupPosts(posts, seconds);
            && |groups| == |posts|
            && forall i :: 0 <= i < |posts| ==> groups[i] == Group(KeyOf(posts[i], seconds), [posts[i]])
    decreases |posts|
  {
    if |posts| > 0 {
      var init := posts[..|posts| - 1];
      var p := posts[|posts| - 1];
      assert forall i :: 0 <= i < |init| ==> init[i] == posts[i];
      GroupPostsDistinct(init, seconds);
      var groups := GroupPosts(init, seconds);
      var k := KeyOf(p, seconds);
      assert FindGroup(groups, k) == |groups| by {
        assert forall j :: 0 <= j < |groups| ==> groups[j].key == KeyOf(posts[j], seconds);
      }
      assert GroupPosts(posts, seconds) == groups + [Group(k, [p])];
    }
  }

  /** Posts with distinct keys fold back to themselves. */
  lemma MergeSingletons(posts: seq<Post>, seconds: string -> int)
    requires DistinctKeys(posts, seconds)
    ensures MergeGroups(GroupPosts(posts, seconds)) == posts
  {
    var groups := GroupPosts(posts, seconds);
    GroupPostsDistinct(posts, seconds);
    var merged := MergeGroups(groups);
    assert NonEmptyGroups(groups);
    forall i | 0 <= i < |posts|
      ensures merged[i] == posts[i]
    {
      assert groups[i].members == [posts[i]];
    }
  }

  /** Consolidating an album a second time changes nothing: after the
      first pass every key has a single post. */
  lemma ConsolidatePostsIdempotent(posts: seq<Post>, seconds: string -> int)
    ensures ConsolidatePosts(ConsolidatePosts(posts, seconds), seconds) == ConsolidatePosts(posts, seconds)
  {
    var r := ConsolidatePosts(posts, seconds);
    ConsolidatePostsKeys(posts, seconds);
    ConsolidatePostsSorted(posts, seconds);
    MergeSingletons(r, seconds);
    SortByDateOfSorted(r);
  }

  // ----- The archive -----

  /** Consolidates every album; the channels and their metadata stay as
      they are and only their posts are replaced. An archive without
      albums is an error. */
  function ConsolidateMedia(archive: Archive, seconds: string -> int): (r: Result<Archive, Error>)
    ensures r.Err? <==> |archive.channels| == 0
    ensures r.Err? ==> r.error == NoAlbums
    ensures r.Ok? ==> |r.value.channels| == |archive.channels|
    ensures r.Ok? ==> forall i :: 0 <= i < |archive.channels| ==>
              && SameMetadata(r.value.channels[i], archive.channels[i])
              && r.value.channels[i].posts == ConsolidatePosts(archive.channels[i].posts, seconds)
  {
    var channels := archive.channels;
    if |channels| == 0 then Err(NoAlbums)
    else Ok(Archive(seq(|channels|, i requires 0 <= i < |channels| =>
                          channels[i].(posts := ConsolidatePosts(channels[i].posts, seconds)))))
  }

  lemma ConsolidateMediaIdempotent(archive: Archive, seconds: string -> int)
    requires ConsolidateMedia(archive, seconds).Ok?
    ensures var once := ConsolidateMedia(archive, seconds).value;
            ConsolidateMedia(once, seconds) == Ok(once)
  {
    var once := ConsolidateMedia(archive, seconds).value;
    var twice := ConsolidateMedia(once, seconds).value;
    forall i | 0 <= i < |once.channels|
      ensures twice.channels[i] == once.channels[i]
    {
      ConsolidatePostsIdempotent(archive.channels[i].posts, seconds);
    }
    assert twice.channels == once.channels;
  }
}
