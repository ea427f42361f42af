/** Channel assignment: a selection of uploaded videos is sent, in one step, to
  * the Discord channel chosen in the sidebar.
  */
module ChannelAssign {
  import opened Seqs
  import opened Wrappers

  /** An uploaded video; size and duration are the display strings the
    * component keeps, and `channel` is absent until one is assigned. */
  datatype Video = Video(id: string, name: string, size: string, duration: string, channel: Option<string>)

  /** A channel of the sidebar. */
  datatype Channel = Channel(id: string, name: string, description: string)

  const MockVideos: seq<Video> := [
    Video("1", "video1.mp4", "45.2 MB", "3:24", None),
    Video("2", "content_2023.mov", "67.8 MB", "5:12", None),
    Video("3", "new_upload.webm", "23.1 MB", "2:08", None),
    Video("4", "preview_video.mp4", "89.4 MB", "7:33", None)
  ]

  const Channels: seq<Channel> := [
    Channel("general", "#general", "General content"),
    Channel("videos", "#videos", "Video content"),
    Channel("vip", "#vip-content", "VIP exclusive content"),
    Channel("announcements", "#announcements", "Important announcements")
  ]

  /** `Array.prototype.find`: the first channel in `cs` with that id. */
  function FindChannel(cs: seq<Channel>, id: string): (r: Option<Channel>)
    ensures r.Some? ==> r.value in cs && r.value.id == id
    ensures r.None? <==> forall c :: c in cs ==> c.id != id
    ensures r.Some? ==> exists i :: 0 <= i < |cs| && cs[i] == r.value && forall k :: 0 <= k < i ==> cs[k].id != id
  {
    if cs == [] then None
    else if cs[0].id == id then Some(cs[0])
    else
      var r := FindChannel(cs[1..], id);
      if r.Some? then
        assert exists i :: 0 <= i < |cs| && cs[i] == r.value && forall k :: 0 <= k < i ==> cs[k].id != id by {
          var j :| 0 <= j < |cs[1..]| && cs[1..][j] == r.value && forall k :: 0 <= k < j ==> cs[1..][k].id != id;
          assert cs[j + 1] == r.value;
          forall k | 0 <= k < j + 1 ensures cs[k].id != id {
            if k > 0 {
              assert cs[k] == cs[1..][k - 1];
            }
          }
        }
        r
      else r
  }

  /** `getChannelName`: the found channel's name, or the id itself when no
    * channel has that id or the name is empty (the `||` fallback). */
  function GetChannelName(channelId: string): string
  {
    var found := FindChannel(Channels, channelId);
    if found.Some? && found.value.name != "" then found.value.name else channelId
  }

  function IsSelectedIn(selected: seq<string>): Video -> bool
  {
    (v: Video) => v.id in selected
  }

  function AssignTo(channel: string): Video -> Video
  {
    (v: Video) => v.(channel := Some(channel))
  }

  /** The videos after `assignChannelToVideos`. */
  function AssignChannel(videos: seq<Video>, selected: seq<string>, channel: string): seq<Video>
  {
    MapWhere(videos, IsSelectedIn(selected), AssignTo(channel))
  }

  /** The selection after `toggleVideoSelection(id)`. */
  function ToggleSelection(selected: seq<string>, id: string): seq<string>
  {
    if id in selected then RemoveAll(selected, id) else selected + [id]
  }

  // ---------------------------------------------------------------- lemmas

  /** A known channel id shows that channel's name; any other id shows itself. */
  lemma GetChannelNameSpec(channelId: string)
    ensures forall i :: 0 <= i < |Channels| && Channels[i].id == channelId ==> GetChannelName(channelId) == Channels[i].name
    ensures (forall c :: c in Channels ==> c.id != channelId) ==> GetChannelName(channelId) == channelId
  {
    var found := FindChannel(Channels, channelId);
    if found.Some? {
      forall i | 0 <= i < |Channels| && Channels[i].id == channelId ensures GetChannelName(channelId) == Channels[i].name {
        assert Channels[i] == found.value by {
          ChannelIdsDistinct();
        }
      }
    }
  }

  /** No two channels of the sidebar share an id, so the found channel is the
    * only one with its id. */
  lemma ChannelIdsDistinct()
    ensures forall c, d :: c in Channels && d in Channels && c.id == d.id ==> c == d
  {
  }

  /** The header shows "#vip-content" for the "vip" channel. */
  lemma KnownChannelName()
    ensures GetChannelName("vip") == "#vip-content"
  {
    GetChannelNameSpec("vip");
    assert Channels[2].id == "vip";
  }

  /** An id missing from the sidebar is shown as it is. */
  lemma UnknownChannelName()
    ensures GetChannelName("memes") == "memes"
  {
    GetChannelNameSpec("memes");
  }

  /** Assignment sets the channel of exactly the selected videos and keeps the
    * list's length, order and every other field. */
  lemma AssignChannelSpec(videos: seq<Video>, selected: seq<string>, channel: string)
    ensures |AssignChannel(videos, selected, channel)| == |videos|
    ensures forall i :: 0 <= i < |videos| ==>
      var w := AssignChannel(videos, selected, channel)[i];
      && w.id == videos[i].id && w.name == videos[i].name
      && w.size == videos[i].size && w.duration == videos[i].duration
      && w.channel == (if videos[i].id in selected then Some(channel) else videos[i].channel)
  {
    MapWhereAt(videos, IsSelectedIn(selected), AssignTo(channel));
  }

  /** With nothing selected, assignment changes nothing. */
  lemma AssignNothing(videos: seq<Video>, channel: string)
    ensures AssignChannel(videos, [], channel) == videos
  {
    MapWhereNoMatch(videos, IsSelectedIn([]), AssignTo(channel));
  }

  /** Assigning the same selection to the same channel again changes nothing. */
  lemma AssignChannelTwice(videos: seq<Video>, selected: seq<string>, channel: string)
    ensures AssignChannel(AssignChannel(videos, selected, channel), selected, channel)
      == AssignChannel(videos, selected, channel)
  {
    var once := AssignChannel(videos, selected, channel);
    AssignChannelSpec(videos, selected, channel);
    AssignChannelSpec(once, selected, channel);
    assert forall i :: 0 <= i < |once| ==> AssignChannel(once, selected, channel)[i] == once[i];
  }

  /** Toggling an id flips its membership, leaves every other id alone and
    * keeps the selection duplicate-free. */
  lemma ToggleSelectionSpec(selected: seq<string>, id: string)
    requires NoDup(selected)
    ensures id in ToggleSelection(selected, id) <==> id !in selected
    ensures forall x :: x != id ==> (x in ToggleSelection(selected, id) <==> x in selected)
    ensures NoDup(ToggleSelection(selected, id))
  {
    if id in selected {
      RemoveAllSpec(selected, id);
      SubsequenceNoDup(RemoveAll(selected, id), selected);
    } else {
      AppendNoDup(selected, id);
    }
  }

  /** Checking and then unchecking a video restores the selection. */
  lemma ToggleSelectionTwice(selected: seq<string>, id: string)
    requires id !in selected
    ensures ToggleSelection(ToggleSelection(selected, id), id) == selected
  {
    AppendThenRemove(selected, id);
  }

  // ---------------------------------------------------------------- the component

  class ChannelAssignment {
    var videos: seq<Video>
    var selectedChannel: string
    var selectedVideos: seq<string>
    /** The uploaded videos as they were before any assignment. */
    ghost const uploads: seq<Video>

    /** The selection has no repeated id, and assignment only ever rewrites
      * a video's channel, so the videos stay the uploads with channels. */
    ghost predicate Valid()
      reads this
    {
      && NoDup(selectedVideos)
      && |videos| == |uploads|
      && forall i :: 0 <= i < |videos| ==> videos[i].(channel := None) == uploads[i]
    }

    constructor ()
      ensures Valid()
      ensures videos == MockVideos && selectedChannel == "general" && selectedVideos == []
      ensures uploads == MockVideos
    {
      videos := MockVideos;
      selectedChannel := "general";
      selectedVideos := [];
      uploads := MockVideos;
    }

    /** `toggleVideoSelection(videoId)`: a video's checkbox. */
    method ToggleVideoSelection(videoId: string)
      requires Valid()
      modifies this
      ensures Valid()
      ensures selectedVideos == ToggleSelection(old(selectedVideos), videoId)
      ensures videos == old(videos) && selectedChannel == old(selectedChannel)
    {
      ToggleSelectionSpec(selectedVideos, videoId);
      selectedVideos := ToggleSelection(selectedVideos, videoId);
    }

    /** `assignChannelToVideos`: the Assign button. The selection is cleared. */
    method AssignChannelToVideos()
      requires Valid()
      modifies this
      ensures Valid()
      ensures videos == AssignChannel(old(videos), old(selectedVideos), old(selectedChannel))
      ensures selectedVideos == [] && selectedChannel == old(selectedChannel)
    {
      AssignChannelSpec(videos, selectedVideos, selectedChannel);
      videos := AssignChannel(videos, selectedVideos, selectedChannel);
      selectedVideos := [];
    }

    /** A channel in the sidebar. */
    method SelectChannel(channelId: string)
      requires Valid()
      modifies this
      ensures Valid()
      ensures selectedChannel == channelId
      ensures videos == old(videos) && selectedVideos == old(selectedVideos)
    {
      selectedChannel := channelId;
    }
  }
}
