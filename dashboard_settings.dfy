/** The settings page: the per-channel switches that say where the bot posts. */
module Settings {
  import opened Seqs

  /** A channel row; the ids are JavaScript numbers, whole here. */
  datatype ChannelSetting = ChannelSetting(id: int, name: string, enabled: bool, description: string)

  const MockChannels: seq<ChannelSetting> := [
    ChannelSetting(1, "#general", true, "General discussion"),
    ChannelSetting(2, "#videos", true, "Video content"),
    ChannelSetting(3, "#vip-content", true, "VIP exclusive content"),
    ChannelSetting(4, "#announcements", false, "Server announcements"),
    ChannelSetting(5, "#news", false, "News and updates")
  ]

  function HasChannelId(id: int): ChannelSetting -> bool
  {
    (c: ChannelSetting) => c.id == id
  }

  function FlipChannel(): ChannelSetting -> ChannelSetting
  {
    (c: ChannelSetting) => c.(enabled := !c.enabled)
  }

  function ChannelId(): ChannelSetting -> int
  {
    (c: ChannelSetting) => c.id
  }

  /** The channels after `toggleChannel(id)`. */
  function ToggleChannelIn(channels: seq<ChannelSetting>, id: int): seq<ChannelSetting>
  {
    MapWhere(channels, HasChannelId(id), FlipChannel())
  }

  // ---------------------------------------------------------------- lemmas

  /** `toggleChannel` flips exactly the switches of the channels with that id;
    * length, order, ids, names and descriptions stay as they were. */
  lemma ToggleChannelSpec(channels: seq<ChannelSetting>, id: int)
    ensures |ToggleChannelIn(channels, id)| == |channels|
    ensures forall i :: 0 <= i < |channels| ==>
      var c := ToggleChannelIn(channels, id)[i];
      && c.id == channels[i].id && c.name == channels[i].name && c.description == channels[i].description
      && c.enabled == (if channels[i].id == id then !channels[i].enabled else channels[i].enabled)
  {
    MapWhereAt(channels, HasChannelId(id), FlipChannel());
  }

  /** Toggling the same channel twice restores the list. */
  lemma ToggleChannelTwice(channels: seq<ChannelSetting>, id: int)
    ensures ToggleChannelIn(ToggleChannelIn(channels, id), id) == channels
  {
    MapWhereTwice(channels, HasChannelId(id), FlipChannel());
  }

  /** An id no channel has leaves the list unchanged. */
  lemma ToggleUnknownChannel(channels: seq<ChannelSetting>, id: int)
    requires forall c :: c in channels ==> c.id != id
    ensures ToggleChannelIn(channels, id) == channels
  {
    MapWhereNoMatch(channels, HasChannelId(id), FlipChannel());
  }

  /** Toggling two channels gives the same list in either order. */
  lemma ToggleChannelsCommute(channels: seq<ChannelSetting>, a: int, b: int)
    ensures ToggleChannelIn(ToggleChannelIn(channels, a), b) == ToggleChannelIn(ToggleChannelIn(channels, b), a)
  {
    var ab := ToggleChannelIn(ToggleChannelIn(channels, a), b);
    var ba := ToggleChannelIn(ToggleChannelIn(channels, b), a);
    ToggleChannelSpec(channels, a);
    ToggleChannelSpec(channels, b);
    ToggleChannelSpec(ToggleChannelIn(channels, a), b);
    ToggleChannelSpec(ToggleChannelIn(channels, b), a);
    assert forall i :: 0 <= i < |channels| ==> ab[i] == ba[i];
  }

  // ---------------------------------------------------------------- the component

  class DashboardSettings {
    var channels: seq<ChannelSetting>
    var isConnected: bool

    /** Channel ids stay distinct: toggling never touches an id. */
    ghost predicate Valid()
      reads this
    {
      DistinctBy(channels, ChannelId())
    }

    constructor ()
      ensures Valid()
      ensures channels == MockChannels && isConnected
    {
      channels := MockChannels;
      isConnected := true;
    }

    /** `toggleChannel(channelId)`: a channel's switch. */
    method ToggleChannel(channelId: int)
      requires Valid()
      modifies this
      ensures Valid()
      ensures channels == ToggleChannelIn(old(channels), channelId)
      ensures isConnected == old(isConnected)
    {
      MapWhereDistinctBy(channels, HasChannelId(channelId), FlipChannel(), ChannelId());
      channels := ToggleChannelIn(channels, channelId);
    }
  }
}
