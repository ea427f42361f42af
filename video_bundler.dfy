/** The video bundle composer: a catalog of uploaded videos the user ticks,
  * named bundles made from the ticked videos (at most ten, at most 500 MiB in
  * all), and the subscription tiers and Discord channels each bundle goes to.
  */
module VideoBundling {
  import opened Seqs
  import opened Text

  datatype VideoFile = VideoFile(id: string, name: string, size: nat, duration: nat, selected: bool)

  datatype Tier = Basic | Medium | Premium

  datatype VideoBundle = VideoBundle(
    id: string,
    name: string,
    videos: seq<VideoFile>,
    totalSize: nat,
    tiers: seq<Tier>,
    channels: seq<string>)

  /** The wizard screens. `Bundle` is part of the declared type, but no button
    * ever switches to it and the component renders nothing for it. */
  datatype Step = Upload | Bundle | Assign

  /** 500 MiB, the byte limit of one bundle. */
  const MaxSize: nat := 500 * 1024 * 1024
  /** The most videos one bundle may hold. */
  const MaxVideos: nat := 10

  /** The catalog the component starts from. */
  const MockVideos: seq<VideoFile> := [
    VideoFile("1", "latina_teen_01.mp4", 45000000, 180, false),
    VideoFile("2", "latina_teen_02.mp4", 52000000, 220, false),
    VideoFile("3", "latina_teen_03.mp4", 48000000, 195, false),
    VideoFile("4", "latina_teen_04.mp4", 55000000, 240, false),
    VideoFile("5", "latina_teen_05.mp4", 41000000, 165, false),
    VideoFile("6", "latina_teen_06.mp4", 49000000, 205, false),
    VideoFile("7", "latina_teen_07.mp4", 46000000, 188, false),
    VideoFile("8", "latina_teen_08.mp4", 53000000, 230, false),
    VideoFile("9", "latina_teen_09.mp4", 44000000, 175, false),
    VideoFile("10", "latina_teen_10.mp4", 50000000, 210, false)
  ]

  // ---------------------------------------------------------------- derived values

  function IsSelected(): VideoFile -> bool
  {
    (v: VideoFile) => v.selected
  }

  /** `videos.filter(v => v.selected)`. */
  function SelectedVideos(vs: seq<VideoFile>): seq<VideoFile>
  {
    Filter(vs, IsSelected())
  }

  /** The summed byte size of `vs` (the `reduce` over the selection; integer
    * addition does not depend on the order of the terms). */
  function TotalSize(vs: seq<VideoFile>): nat
  {
    if vs == [] then 0 else vs[0].size + TotalSize(vs[1..])
  }

  /** `isValidSelection`: at most ten ticked videos, at most 500 MiB in all.
    * An empty selection passes; only the Create button also asks for one video. */
  predicate IsValidSelection(vs: seq<VideoFile>)
  {
    var sel := SelectedVideos(vs);
    |sel| <= MaxVideos && TotalSize(sel) <= MaxSize
  }

  /** Whether the Create Bundle button is enabled. */
  predicate CreateEnabled(name: string, vs: seq<VideoFile>)
  {
    Trim(name) != [] && IsValidSelection(vs) && |SelectedVideos(vs)| != 0
  }

  /** `formatDuration`: whole seconds as minutes, a colon and two-digit seconds. */
  function FormatDuration(seconds: nat): string
  {
    NatToString(seconds / 60) + ":" + PadStart(NatToString(seconds % 60), 2, '0')
  }

  // ---------------------------------------------------------------- list updates

  function HasVideoId(id: string): VideoFile -> bool
  {
    (v: VideoFile) => v.id == id
  }

  function FlipSelected(): VideoFile -> VideoFile
  {
    (v: VideoFile) => v.(selected := !v.selected)
  }

  function AnyVideo(): VideoFile -> bool
  {
    (v: VideoFile) => true
  }

  function Deselect(): VideoFile -> VideoFile
  {
    (v: VideoFile) => v.(selected := false)
  }

  function VideoId(): VideoFile -> string
  {
    (v: VideoFile) => v.id
  }

  /** The catalog after `toggleVideoSelection(id)`. */
  function ToggleVideo(vs: seq<VideoFile>, id: string): seq<VideoFile>
  {
    MapWhere(vs, HasVideoId(id), FlipSelected())
  }

  /** The catalog with every tick cleared. */
  function ClearSelection(vs: seq<VideoFile>): seq<VideoFile>
  {
    MapWhere(vs, AnyVideo(), Deselect())
  }

  function HasBundleId(id: string): VideoBundle -> bool
  {
    (b: VideoBundle) => b.id == id
  }

  function OtherBundle(id: string): VideoBundle -> bool
  {
    (b: VideoBundle) => b.id != id
  }

  function BundleId(): VideoBundle -> string
  {
    (b: VideoBundle) => b.id
  }

  function WithTiers(tiers: seq<Tier>): VideoBundle -> VideoBundle
  {
    (b: VideoBundle) => b.(tiers := tiers)
  }

  function WithChannels(channels: seq<string>): VideoBundle -> VideoBundle
  {
    (b: VideoBundle) => b.(channels := channels)
  }

  /** The bundles after `removeBundle(id)`. */
  function RemoveBundleFrom(bs: seq<VideoBundle>, id: string): seq<VideoBundle>
  {
    Filter(bs, OtherBundle(id))
  }

  /** The bundles after `updateBundleTiers(id, tiers)`. */
  function SetTiers(bs: seq<VideoBundle>, id: string, tiers: seq<Tier>): seq<VideoBundle>
  {
    MapWhere(bs, HasBundleId(id), WithTiers(tiers))
  }

  /** The bundles after `updateBundleChannels(id, channels)`. */
  function SetChannels(bs: seq<VideoBundle>, id: string, channels: seq<string>): seq<VideoBundle>
  {
    MapWhere(bs, HasBundleId(id), WithChannels(channels))
  }

  /** The list a tier or channel check box hands on: `x` appended when the box
    * becomes checked, every `x` removed when it becomes unchecked. */
  function CheckedList<T(==)>(current: seq<T>, x: T, checked: bool): seq<T>
  {
    if checked then current + [x] else RemoveAll(current, x)
  }

  /** A bundle as `createBundle` builds it and as every later step keeps it:
    * its size is the sum of its videos' sizes, within both limits, and its
    * videos are the snapshot of ticked catalog entries. */
  ghost predicate WellFormed(b: VideoBundle)
  {
    && b.totalSize == TotalSize(b.videos)
    && |b.videos| <= MaxVideos
    && b.totalSize <= MaxSize
    && forall v :: v in b.videos ==> v.selected
  }

  // ---------------------------------------------------------------- the component

  class VideoBundler {
    var videos: seq<VideoFile>
    var bundles: seq<VideoBundle>
    var bundleName: string
    var currentStep: Step
    /** The catalog with ticks cleared, as it was at the start. */
    ghost const catalog: seq<VideoFile>

    /** What every reachable state satisfies: the catalog is the initial one
      * up to ticks, bundle ids are distinct, every bundle is well formed, and
      * the wizard is on one of its two screens. */
    ghost predicate Valid()
      reads this
    {
      && ClearSelection(videos) == catalog
      && DistinctBy(bundles, BundleId())
      && (forall b :: b in bundles ==> WellFormed(b))
      && currentStep != Bundle
    }

    constructor ()
      ensures Valid()
      ensures videos == MockVideos && bundles == [] && bundleName == [] && currentStep == Upload
      ensures catalog == ClearSelection(MockVideos)
    {
      catalog := ClearSelection(MockVideos);
      videos := MockVideos;
      bundles := [];
      bundleName := [];
      currentStep := Upload;
    }

    /** Typing into the Bundle Name input. */
    method SetBundleName(name: string)
      requires Valid()
      modifies this
      ensures Valid()
      ensures bundleName == name
      ensures videos == old(videos) && bundles == old(bundles) && currentStep == old(currentStep)
    {
      bundleName := name;
    }

    /** `toggleVideoSelection(videoId)`: the check box beside a catalog entry. */
    method ToggleVideoSelection(videoId: string)
      requires Valid()
      modifies this
      ensures Valid()
      ensures videos == ToggleVideo(old(videos), videoId)
      ensures bundles == old(bundles) && bundleName == old(bundleName) && currentStep == old(currentStep)
    {
      CatalogAfterToggle(videos, videoId);
      videos := ToggleVideo(videos, videoId);
    }

    /** `createBundle`; `id` stands for `Date.now().toString()`, taken to be new. */
    method CreateBundle(id: string)
      requires Valid()
      requires forall b :: b in bundles ==> b.id != id
      modifies this
      ensures Valid()
      ensures currentStep == old(currentStep)
      ensures !(Trim(old(bundleName)) != [] && IsValidSelection(old(videos))) ==>
        videos == old(videos) && bundles == old(bundles) && bundleName == old(bundleName)
      ensures Trim(old(bundleName)) != [] && IsValidSelection(old(videos)) ==>
        && bundles == old(bundles) + [NewBundle(id, old(bundleName), old(videos))]
        && videos == ClearSelection(old(videos))
        && bundleName == []
    {
      if Trim(bundleName) == [] || !IsValidSelection(videos) {
        return;
      }
      var b := NewBundle(id, bundleName, videos);
      NewBundleWellFormed(id, bundleName, videos);
      AppendDistinctBy(bundles, b, BundleId());
      ClearSelectionTwice(videos);
      bundles := bundles + [b];
      bundleName := [];
      videos := ClearSelection(videos);
    }

    /** `removeBundle(bundleId)`: the X beside a created bundle. */
    method RemoveBundle(bundleId: string)
      requires Valid()
      modifies this
      ensures Valid()
      ensures bundles == RemoveBundleFrom(old(bundles), bundleId)
      ensures videos == old(videos) && bundleName == old(bundleName) && currentStep == old(currentStep)
    {
      FilterMembers(bundles, OtherBundle(bundleId));
      FilterDistinctBy(bundles, OtherBundle(bundleId), BundleId());
      bundles := RemoveBundleFrom(bundles, bundleId);
    }

    /** `updateBundleTiers(bundleId, tiers)`. */
    method UpdateBundleTiers(bundleId: string, tiers: seq<Tier>)
      requires Valid()
      modifies this
      ensures Valid()
      ensures bundles == SetTiers(old(bundles), bundleId, tiers)
      ensures videos == old(videos) && bundleName == old(bundleName) && currentStep == old(currentStep)
    {
      SetTiersSpec(bundles, bundleId, tiers);
      MapWhereDistinctBy(bundles, HasBundleId(bundleId), WithTiers(tiers), BundleId());
      bundles := SetTiers(bundles, bundleId, tiers);
    }

    /** `updateBundleChannels(bundleId, channels)`. */
    method UpdateBundleChannels(bundleId: string, channels: seq<string>)
      requires Valid()
      modifies this
      ensures Valid()
      ensures bundles == SetChannels(old(bundles), bundleId, channels)
      ensures videos == old(videos) && bundleName == old(bundleName) && currentStep == old(currentStep)
    {
      SetChannelsSpec(bundles, bundleId, channels);
      MapWhereDistinctBy(bundles, HasBundleId(bundleId), WithChannels(channels), BundleId());
      bundles := SetChannels(bundles, bundleId, channels);
    }

    /** The tier check box of the bundle shown at position `index` on the
      * assignment screen; `checked` is the box's new state. */
    method TierChecked(index: nat, tier: Tier, checked: bool)
      requires Valid()
      requires index < |bundles|
      modifies this
      ensures Valid()
      ensures var b := old(bundles)[index];
        bundles == SetTiers(old(bundles), b.id, CheckedList(b.tiers, tier, checked))
      ensures videos == old(videos) && bundleName == old(bundleName) && currentStep == old(currentStep)
    {
      var b := bundles[index];
      UpdateBundleTiers(b.id, CheckedList(b.tiers, tier, checked));
    }

    /** The channel check box of the bundle shown at position `index`. */
    method ChannelChecked(index: nat, channelId: string, checked: bool)
      requires Valid()
      requires index < |bundles|
      modifies this
      ensures Valid()
      ensures var b := old(bundles)[index];
        bundles == SetChannels(old(bundles), b.id, CheckedList(b.channels, channelId, checked))
      ensures videos == old(videos) && bundleName == old(bundleName) && currentStep == old(currentStep)
    {
      var b := bundles[index];
      UpdateBundleChannels(b.id, CheckedList(b.channels, channelId, checked));
    }

    /** "Next: Assign Tiers & Channels", shown on the upload screen and
      * disabled while there is no bundle. */
    method NextStep()
      requires Valid()
      requires currentStep == Upload
      modifies this
      ensures Valid()
      ensures currentStep == if |bundles| == 0 then Upload else Assign
      ensures videos == old(videos) && bundles == old(bundles) && bundleName == old(bundleName)
    {
      if |bundles| != 0 {
        currentStep := Assign;
      }
    }

    /** "Back", shown on the assignment screen. */
    method Back()
      requires Valid()
      requires currentStep == Assign
      modifies this
      ensures Valid()
      ensures currentStep == Upload
      ensures videos == old(videos) && bundles == old(bundles) && bundleName == old(bundleName)
    {
      currentStep := Upload;
    }
  }

  /** The bundle `createBundle` appends. */
  function NewBundle(id: string, name: string, vs: seq<VideoFile>): VideoBundle
  {
    VideoBundle(id, name, SelectedVideos(vs), TotalSize(SelectedVideos(vs)), [], [])
  }

  // ---------------------------------------------------------------- lemmas: selection

  /** The derived selection lists exactly the ticked catalog entries, in
    * catalog order, each as often as in the catalog. */
  lemma SelectedVideosSpec(vs: seq<VideoFile>)
    ensures forall v :: v in SelectedVideos(vs) <==> v in vs && v.selected
    ensures IsSubsequence(SelectedVideos(vs), vs)
    ensures forall v: VideoFile :: v.selected ==> multiset(SelectedVideos(vs))[v] == multiset(vs)[v]
    ensures |SelectedVideos(vs)| <= |vs|
  {
    FilterMembers(vs, IsSelected());
    FilterIsSubsequence(vs, IsSelected());
    FilterLength(vs, IsSelected());
    forall v: VideoFile | v.selected ensures multiset(SelectedVideos(vs))[v] == multiset(vs)[v] {
      FilterKeepsCount(vs, IsSelected(), v);
    }
  }

  /** Sizes add up over concatenation. */
  lemma {:induction false} TotalSizeAppend(a: seq<VideoFile>, b: seq<VideoFile>)
    ensures TotalSize(a + b) == TotalSize(a) + TotalSize(b)
  {
    if a == [] {
      assert a + b == b;
    } else {
      assert (a + b)[1..] == a[1..] + b;
      TotalSizeAppend(a[1..], b);
    }
  }

  /** A sublist is never larger than the list. */
  lemma {:induction false} TotalSizeSubsequence(r: seq<VideoFile>, s: seq<VideoFile>)
    requires IsSubsequence(r, s)
    ensures TotalSize(r) <= TotalSize(s)
    decreases |s|
  {
    if r != [] && s != [] {
      if r[0] == s[0] && IsSubsequence(r[1..], s[1..]) {
        TotalSizeSubsequence(r[1..], s[1..]);
      } else {
        TotalSizeSubsequence(r, s[1..]);
      }
    }
  }

  /** `n` videos of `size` bytes each weigh `n * size` bytes. */
  lemma {:induction false} TotalSizeUniform(vs: seq<VideoFile>, size: nat)
    requires forall i :: 0 <= i < |vs| ==> vs[i].size == size
    ensures TotalSize(vs) == |vs| * size
  {
    if vs != [] {
      TotalSizeUniform(vs[1..], size);
    }
  }

  /** When every catalog entry is ticked, validity is the count and byte limit
    * on the whole catalog. */
  lemma AllSelectedValidity(vs: seq<VideoFile>)
    requires forall i :: 0 <= i < |vs| ==> vs[i].selected
    ensures IsValidSelection(vs) <==> |vs| <= MaxVideos && TotalSize(vs) <= MaxSize
  {
    FilterAllKept(vs, IsSelected());
  }

  /** Ten ticked videos of 50,000,000 bytes (500,000,000 bytes in all) pass. */
  lemma TenVideosOfFiftyMillionBytesPass(vs: seq<VideoFile>)
    requires |vs| == 10
    requires forall i :: 0 <= i < |vs| ==> vs[i].selected && vs[i].size == 50000000
    ensures IsValidSelection(vs)
  {
    AllSelectedValidity(vs);
    TotalSizeUniform(vs, 50000000);
  }

  /** Eleven ticked videos fail, whatever their size. */
  lemma ElevenVideosFail(vs: seq<VideoFile>)
    requires |vs| == 11
    requires forall i :: 0 <= i < |vs| ==> vs[i].selected
    ensures !IsValidSelection(vs)
  {
    AllSelectedValidity(vs);
  }

  /** No single video is larger than the total it is part of. */
  lemma {:induction false} TotalSizeAtLeastMember(vs: seq<VideoFile>, v: VideoFile)
    requires v in vs
    ensures TotalSize(vs) >= v.size
  {
    if vs[0] != v {
      TotalSizeAtLeastMember(vs[1..], v);
    }
  }

  /** One ticked video larger than 500 MiB fails on its own. */
  lemma OversizedVideoFails(vs: seq<VideoFile>, k: nat)
    requires k < |vs| && vs[k].selected && vs[k].size > MaxSize
    ensures !IsValidSelection(vs)
  {
    SelectedVideosSpec(vs);
    TotalSizeAtLeastMember(SelectedVideos(vs), vs[k]);
  }

  /** With nothing ticked the selection passes and is empty: the validity test
    * itself admits an empty bundle, and only the button refuses one. */
  lemma EmptySelectionPasses(vs: seq<VideoFile>)
    requires forall i :: 0 <= i < |vs| ==> !vs[i].selected
    ensures SelectedVideos(vs) == [] && IsValidSelection(vs)
    ensures forall name :: !CreateEnabled(name, vs)
  {
    SelectedVideosSpec(vs);
    if SelectedVideos(vs) != [] {
      assert false;
    }
  }

  /** An enabled Create button always leads to a new, non-empty bundle. */
  lemma EnabledButtonCreates(name: string, vs: seq<VideoFile>)
    requires CreateEnabled(name, vs)
    ensures Trim(name) != [] && IsValidSelection(vs)
    ensures |NewBundle("", name, vs).videos| >= 1
  {
  }

  /** Ticks do not change sizes, so the selected size is bounded by the size of
    * the catalog with ticks cleared. */
  lemma {:induction false} ClearSelectionKeepsSize(vs: seq<VideoFile>)
    ensures TotalSize(ClearSelection(vs)) == TotalSize(vs)
  {
    if vs != [] {
      ClearSelectionKeepsSize(vs[1..]);
    }
  }

  /** The initial catalog holds ten videos of 483,000,000 bytes in all. */
  lemma MockCatalogSize()
    ensures |MockVideos| == 10 && TotalSize(MockVideos) == 483000000
  {
    var m := MockVideos;
    assert TotalSize(m[10..]) == 0;
    assert m[9..][1..] == m[10..];
    assert TotalSize(m[9..]) == 50000000;
    assert m[8..][1..] == m[9..];
    assert TotalSize(m[8..]) == 94000000;
    assert m[7..][1..] == m[8..];
    assert TotalSize(m[7..]) == 147000000;
    assert m[6..][1..] == m[7..];
    assert TotalSize(m[6..]) == 193000000;
    assert m[5..][1..] == m[6..];
    assert TotalSize(m[5..]) == 242000000;
    assert m[4..][1..] == m[5..];
    assert TotalSize(m[4..]) == 283000000;
    assert m[3..][1..] == m[4..];
    assert TotalSize(m[3..]) == 338000000;
    assert m[2..][1..] == m[3..];
    assert TotalSize(m[2..]) == 386000000;
    assert m[1..][1..] == m[2..];
    assert TotalSize(m[1..]) == 438000000;
    assert m[0..][1..] == m[1..];
    assert m[0..] == m;
  }

  /** With the initial catalog (ten videos, 483,000,000 bytes) no selection can
    * break either limit, so `createBundle` there only ever checks the name. */
  lemma MockCatalogAlwaysValid(vs: seq<VideoFile>)
    requires ClearSelection(vs) == ClearSelection(MockVideos)
    ensures IsValidSelection(vs)
  {
    MockCatalogSize();
    ClearSelectionSpec(vs);
    ClearSelectionSpec(MockVideos);
    SelectedVideosSpec(vs);
    TotalSizeSubsequence(SelectedVideos(vs), vs);
    ClearSelectionKeepsSize(vs);
    ClearSelectionKeepsSize(MockVideos);
  }

  // ---------------------------------------------------------------- lemmas: catalog updates

  /** `toggleVideoSelection` flips the tick of the entries with that id and
    * touches nothing else. */
  lemma ToggleVideoSpec(vs: seq<VideoFile>, id: string)
    ensures |ToggleVideo(vs, id)| == |vs|
    ensures forall i :: 0 <= i < |vs| ==>
      ToggleVideo(vs, id)[i] == if vs[i].id == id then vs[i].(selected := !vs[i].selected) else vs[i]
  {
    MapWhereAt(vs, HasVideoId(id), FlipSelected());
  }

  /** Toggling the same entry twice restores the catalog. */
  lemma ToggleVideoTwice(vs: seq<VideoFile>, id: string)
    ensures ToggleVideo(ToggleVideo(vs, id), id) == vs
  {
    MapWhereTwice(vs, HasVideoId(id), FlipSelected());
  }

  /** After `createBundle` every entry is unticked and keeps its id, name,
    * size, duration and place. */
  lemma ClearSelectionSpec(vs: seq<VideoFile>)
    ensures |ClearSelection(vs)| == |vs|
    ensures forall i :: 0 <= i < |vs| ==>
      var w := ClearSelection(vs)[i];
      !w.selected && w.id == vs[i].id && w.name == vs[i].name
      && w.size == vs[i].size && w.duration == vs[i].duration
  {
    MapWhereAt(vs, AnyVideo(), Deselect());
  }

  /** Clearing twice is clearing once. */
  lemma ClearSelectionTwice(vs: seq<VideoFile>)
    ensures ClearSelection(ClearSelection(vs)) == ClearSelection(vs)
  {
    MapWhereAt(vs, AnyVideo(), Deselect());
    MapWhereAt(ClearSelection(vs), AnyVideo(), Deselect());
  }

  /** Toggling changes the catalog only in its ticks. */
  lemma CatalogAfterToggle(vs: seq<VideoFile>, id: string)
    ensures ClearSelection(ToggleVideo(vs, id)) == ClearSelection(vs)
  {
    ToggleVideoSpec(vs, id);
    MapWhereAt(vs, AnyVideo(), Deselect());
    MapWhereAt(ToggleVideo(vs, id), AnyVideo(), Deselect());
  }

  // ---------------------------------------------------------------- lemmas: bundles

  /** The bundle `createBundle` builds holds the ticked videos in catalog order
    * with their summed size, has no tiers or channels yet, carries the name as
    * typed, and is well formed when the selection passed the validity test. */
  lemma NewBundleWellFormed(id: string, name: string, vs: seq<VideoFile>)
    requires IsValidSelection(vs)
    ensures WellFormed(NewBundle(id, name, vs))
    ensures IsSubsequence(NewBundle(id, name, vs).videos, vs)
    ensures forall v :: v in NewBundle(id, name, vs).videos <==> v in vs && v.selected
    ensures forall v: VideoFile :: v.selected ==> multiset(NewBundle(id, name, vs).videos)[v] == multiset(vs)[v]
    ensures NewBundle(id, name, vs).name == name && NewBundle(id, name, vs).id == id
    ensures NewBundle(id, name, vs).tiers == [] && NewBundle(id, name, vs).channels == []
  {
    SelectedVideosSpec(vs);
  }

  /** `removeBundle` drops exactly the bundles with that id and keeps the others
    * in order; an unknown id changes nothing. */
  lemma RemoveBundleSpec(bs: seq<VideoBundle>, id: string)
    ensures forall b :: b in RemoveBundleFrom(bs, id) <==> b in bs && b.id != id
    ensures IsSubsequence(RemoveBundleFrom(bs, id), bs)
    ensures forall b: VideoBundle :: b.id != id ==> multiset(RemoveBundleFrom(bs, id))[b] == multiset(bs)[b]
    ensures (forall b :: b in bs ==> b.id != id) ==> RemoveBundleFrom(bs, id) == bs
  {
    FilterMembers(bs, OtherBundle(id));
    FilterIsSubsequence(bs, OtherBundle(id));
    forall b: VideoBundle | b.id != id ensures multiset(RemoveBundleFrom(bs, id))[b] == multiset(bs)[b] {
      FilterKeepsCount(bs, OtherBundle(id), b);
    }
    if forall b :: b in bs ==> b.id != id {
      FilterAllKept(bs, OtherBundle(id));
    }
  }

  /** `updateBundleTiers` replaces the tiers of the bundles with that id and
    * nothing else; the bundles stay well formed. */
  lemma SetTiersSpec(bs: seq<VideoBundle>, id: string, tiers: seq<Tier>)
    ensures |SetTiers(bs, id, tiers)| == |bs|
    ensures forall i :: 0 <= i < |bs| ==>
      SetTiers(bs, id, tiers)[i] == if bs[i].id == id then bs[i].(tiers := tiers) else bs[i]
    ensures (forall b :: b in bs ==> WellFormed(b)) ==>
      forall b :: b in SetTiers(bs, id, tiers) ==> WellFormed(b)
  {
    MapWhereAt(bs, HasBundleId(id), WithTiers(tiers));
    var r := SetTiers(bs, id, tiers);
    if forall b :: b in bs ==> WellFormed(b) {
      forall b | b in r ensures WellFormed(b) {
        var i :| 0 <= i < |r| && r[i] == b;
        assert bs[i] in bs;
      }
    }
  }

  /** `updateBundleChannels` replaces the channels of the bundles with that id
    * and nothing else; the bundles stay well formed. */
  lemma SetChannelsSpec(bs: seq<VideoBundle>, id: string, channels: seq<string>)
    ensures |SetChannels(bs, id, channels)| == |bs|
    ensures forall i :: 0 <= i < |bs| ==>
      SetChannels(bs, id, channels)[i] == if bs[i].id == id then bs[i].(channels := channels) else bs[i]
    ensures (forall b :: b in bs ==> WellFormed(b)) ==>
      forall b :: b in SetChannels(bs, id, channels) ==> WellFormed(b)
  {
    MapWhereAt(bs, HasBundleId(id), WithChannels(channels));
    var r := SetChannels(bs, id, channels);
    if forall b :: b in bs ==> WellFormed(b) {
      forall b | b in r ensures WellFormed(b) {
        var i :| 0 <= i < |r| && r[i] == b;
        assert bs[i] in bs;
      }
    }
  }

  /** Checking a box appends the value; unchecking removes every occurrence and
    * keeps the rest in order. When `checked` is the negation of the box's
    * current state, as a check box reports it, the list stays duplicate-free
    * and the value ends up present exactly when it was absent. */
  lemma CheckedListSpec<T>(current: seq<T>, x: T, checked: bool)
    ensures checked ==> CheckedList(current, x, checked) == current + [x]
    ensures !checked ==>
              && x !in CheckedList(current, x, checked)
              && IsSubsequence(CheckedList(current, x, checked), current)
              && forall y :: y != x ==> multiset(CheckedList(current, x, checked))[y] == multiset(current)[y]
    ensures NoDup(current) && checked == (x !in current) ==>
      NoDup(CheckedList(current, x, checked)) && (x in CheckedList(current, x, checked) <==> x !in current)
  {
    RemoveAllSpec(current, x);
    if NoDup(current) && checked == (x !in current) {
      if checked {
        AppendNoDup(current, x);
      } else {
        FilterNoDup(current, Unequal(x));
      }
    }
  }

  // ---------------------------------------------------------------- lemmas: formatDuration

  /** Padding one digit to two with a leading zero keeps its value. */
  lemma PadOneDigit(s: string)
    requires |s| == 1 && AllDigits(s)
    ensures PadStart(s, 2, '0') == ['0'] + s
    ensures DecimalValue(['0'] + s) == DecimalValue(s)
  {
    var p := PadStart(s, 2, '0');
    assert p[1..] == s;
    assert p == ['0'] + s;
    assert p[..1] == ['0'];
    assert DecimalValue(p[..1]) == 0 by {
      assert p[..1][..0] == [];
    }
    assert s[..0] == [];
  }

  /** A number below 100 has at most two digits. */
  lemma NatToStringLength(n: nat)
    requires n < 100
    ensures |NatToString(n)| <= 2
  {
    if n >= 10 {
      assert n / 10 < 10;
      assert |NatToString(n / 10)| == 1;
    }
  }

  /** Padding the decimal form of a number below 60 to two digits keeps its value. */
  lemma PaddedSeconds(secs: nat)
    requires secs < 60
    ensures |PadStart(NatToString(secs), 2, '0')| == 2
    ensures AllDigits(PadStart(NatToString(secs), 2, '0'))
    ensures DecimalValue(PadStart(NatToString(secs), 2, '0')) == secs
  {
    var s := NatToString(secs);
    NatToStringValue(secs);
    NatToStringLength(secs);
    if |s| == 1 {
      PadOneDigit(s);
    }
  }

  /** The parts of `m + ":" + p` when `p` has two characters. */
  lemma ColonJoin(m: string, p: string)
    requires |m| >= 1 && |p| == 2
    ensures var r := m + ":" + p;
      |r| == |m| + 3 && r[..|r| - 3] == m && r[|r| - 3] == ':' && r[|r| - 2..] == p && r[0] == m[0]
  {
  }

  /** `formatDuration(s)` is `m:ss` with `m * 60 + ss == s`, `ss < 60`, the
    * seconds always two digits and the minutes without a leading zero. */
  lemma FormatDurationSpec(seconds: nat)
    ensures var r := FormatDuration(seconds);
      && |r| >= 4
      && r[|r| - 3] == ':'
      && AllDigits(r[..|r| - 3]) && AllDigits(r[|r| - 2..])
      && DecimalValue(r[..|r| - 3]) * 60 + DecimalValue(r[|r| - 2..]) == seconds
      && DecimalValue(r[|r| - 2..]) < 60
      && (r[0] == '0' ==> |r| == 4)
  {
    var mins, secs := seconds / 60, seconds % 60;
    assert mins * 60 + secs == seconds;
    var m := NatToString(mins);
    var p := PadStart(NatToString(secs), 2, '0');
    NatToStringValue(mins);
    PaddedSeconds(secs);
    ColonJoin(m, p);
    assert FormatDuration(seconds) == m + ":" + p;
  }
}
