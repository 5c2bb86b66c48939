// internal/realtime/topics.go and user_topics.go: the Redis pub/sub topics of channels and users.
module Topics {
  import opened Base
  import opened Decimal
  import opened Fields

  const USER_PREFIX := "user" + ":"
  const USER_SUFFIX := ":" + "notifications"

  function ChannelTopic(workspace: int64, channel: int64): string {
    "workspace" + ":" + FormatInt(workspace) + ":" + "channel" + ":" + FormatInt(channel)
  }

  function UserTopic(user: int64): string {
    "user" + ":" + FormatInt(user) + ":" + "notifications"
  }

  predicate HasSuffix(s: string, suffix: string) {
    |suffix| <= |s| && s[|s| - |suffix|..] == suffix
  }

  function ParseUserTopic(topic: string): Option<int64> {
    if !(USER_PREFIX <= topic) || !HasSuffix(topic, USER_SUFFIX) then
      None
    else
      var parts := Split(topic);
      if |parts| != 3 then None else ParseInt(parts[1])
  }

  lemma UserTopicParts(user: int64)
    ensures Split(UserTopic(user)) == ["user", FormatInt(user), "notifications"]
  {
    var parts := ["user", FormatInt(user), "notifications"];
    SplitJoin(parts);
    JoinFew("user", FormatInt(user), "notifications", "", "");
  }

  lemma ChannelTopicParts(workspace: int64, channel: int64)
    ensures Split(ChannelTopic(workspace, channel))
         == ["workspace", FormatInt(workspace), "channel", FormatInt(channel)]
  {
    var parts := ["workspace", FormatInt(workspace), "channel", FormatInt(channel)];
    SplitJoin(parts);
    JoinFew("workspace", FormatInt(workspace), "channel", FormatInt(channel), "");
  }

  // Every user topic is read back as the user it was printed for.
  lemma UserTopicRoundTrip(user: int64)
    ensures ParseUserTopic(UserTopic(user)) == Some(user)
  {
    UserTopicParts(user);
    ParseFormat(user);
    SuffixOf("user" + ":" + FormatInt(user), USER_SUFFIX);
    ColonSuffix("user" + ":" + FormatInt(user), "notifications");
  }

  lemma SuffixOf(s: string, suffix: string)
    ensures HasSuffix(s + suffix, suffix)
  {
  }

  lemma ColonSuffix(s: string, word: string)
    ensures s + (":" + word) == s + ":" + word
  {
  }

  // The read loop never takes a channel topic for a user topic.
  lemma ChannelTopicIsNotUserTopic(workspace: int64, channel: int64)
    ensures ParseUserTopic(ChannelTopic(workspace, channel)) == None
  {
    assert ChannelTopic(workspace, channel)[0] == 'w';
    assert USER_PREFIX[0] == 'u';
  }

  lemma ChannelTopicInjective(w: int64, c: int64, x: int64, d: int64)
    requires ChannelTopic(w, c) == ChannelTopic(x, d)
    ensures w == x && c == d
  {
    ChannelTopicParts(w, c);
    ChannelTopicParts(x, d);
    var p, q := Split(ChannelTopic(w, c)), Split(ChannelTopic(x, d));
    assert p[1] == q[1] && p[3] == q[3];
    FormatInjective(w, x);
    FormatInjective(c, d);
  }

  // Subscribing to a channel never touches a user's subscription and the other way round.
  lemma TopicsDisjoint(w: int64, c: int64, user: int64)
    ensures ChannelTopic(w, c) != UserTopic(user)
  {
    assert ChannelTopic(w, c)[0] == 'w';
    assert UserTopic(user)[0] == 'u';
  }

  lemma UserTopicInjective(u: int64, v: int64)
    requires UserTopic(u) == UserTopic(v)
    ensures u == v
  {
    UserTopicRoundTrip(u);
    UserTopicRoundTrip(v);
  }
}
