// internal/presence/keys.go: the printers of the six Redis key families and of channel references.
module PresenceKeys {
  import opened Base
  import opened Decimal
  import opened Fields

  datatype Key =
    | User(user: int64)
    | GlobalOnline
    | WorkspaceOnline(workspace: int64)
    | WorkspaceConn(user: int64, workspace: int64)
    | ChannelConn(user: int64, workspace: int64, channel: int64)
    | UserChannels(user: int64)

  function Print(k: Key): string {
    match k
    case User(u) => "presence" + ":" + FormatInt(u)
    case GlobalOnline => "presence" + ":" + "online"
    case WorkspaceOnline(w) => "presence" + ":" + "workspace" + ":" + FormatInt(w) + ":" + "online"
    case WorkspaceConn(u, w) => "presence" + ":" + "ws" + ":" + FormatInt(u) + ":" + FormatInt(w)
    case ChannelConn(u, w, c) =>
      "presence" + ":" + "ch" + ":" + FormatInt(u) + ":" + FormatInt(w) + ":" + FormatInt(c)
    case UserChannels(u) => "presence" + ":" + "user" + ":" + FormatInt(u) + ":" + "channels"
  }

  function PrintRef(ref: ChannelRef): string {
    FormatInt(ref.workspace) + ":" + FormatInt(ref.channel)
  }

  function ParseRef(raw: string): Option<ChannelRef> {
    var i := FirstColon(raw);
    if i == |raw| then
      None
    else
      match (ParseInt(raw[..i]), ParseInt(raw[i + 1..]))
      case (Some(w), Some(c)) => Some(ChannelRef(w, c))
      case _ => None
  }

  // The colon-separated fields of a key.
  function Parts(k: Key): (parts: seq<string>)
    ensures |parts| > 0 && Plain(parts)
  {
    match k
    case User(u) => ["presence", FormatInt(u)]
    case GlobalOnline => ["presence", "online"]
    case WorkspaceOnline(w) => ["presence", "workspace", FormatInt(w), "online"]
    case WorkspaceConn(u, w) => ["presence", "ws", FormatInt(u), FormatInt(w)]
    case ChannelConn(u, w, c) => ["presence", "ch", FormatInt(u), FormatInt(w), FormatInt(c)]
    case UserChannels(u) => ["presence", "user", FormatInt(u), "channels"]
  }

  lemma PrintIsJoin(k: Key)
    ensures Print(k) == Join(Parts(k))
  {
    var p := "presence";
    match k
    case User(u) => JoinFew(p, FormatInt(u), "", "", "");
    case GlobalOnline => JoinFew(p, "online", "", "", "");
    case WorkspaceOnline(w) => JoinFew(p, "workspace", FormatInt(w), "online", "");
    case WorkspaceConn(u, w) => JoinFew(p, "ws", FormatInt(u), FormatInt(w), "");
    case ChannelConn(u, w, c) => JoinFew(p, "ch", FormatInt(u), FormatInt(w), FormatInt(c));
    case UserChannels(u) => JoinFew(p, "user", FormatInt(u), "channels", "");
  }

  // A reader for keys: the repository only prints them, so this exists to state that no key is ambiguous.
  function ReadParts(parts: seq<string>): Option<Key> {
    if |parts| == 2 then
      if parts[1] == "online" then Some(GlobalOnline)
      else
        match ParseInt(parts[1])
        case Some(u) => Some(User(u))
        case None => None
    else if |parts| == 4 && parts[1] == "workspace" then
      match ParseInt(parts[2])
      case Some(w) => Some(WorkspaceOnline(w))
      case None => None
    else if |parts| == 4 && parts[1] == "user" then
      match ParseInt(parts[2])
      case Some(u) => Some(UserChannels(u))
      case None => None
    else if |parts| == 4 then
      match (ParseInt(parts[2]), ParseInt(parts[3]))
      case (Some(u), Some(w)) => Some(WorkspaceConn(u, w))
      case _ => None
    else if |parts| == 5 then
      match (ParseInt(parts[2]), ParseInt(parts[3]), ParseInt(parts[4]))
      case (Some(u), Some(w), Some(c)) => Some(ChannelConn(u, w, c))
      case _ => None
    else
      None
  }

  lemma ReadPrinted(k: Key)
    ensures ReadParts(Split(Print(k))) == Some(k)
  {
    PrintIsJoin(k);
    SplitJoin(Parts(k));
    ReadOwnParts(k);
  }

  lemma ReadOwnParts(k: Key)
    ensures ReadParts(Parts(k)) == Some(k)
  {
    hide ParseInt, FormatInt;
    match k
    case User(u) =>
      assert "online"[0] == 'o';
      ParseFormat(u);
    case GlobalOnline =>
    case WorkspaceOnline(w) => ParseFormat(w);
    case UserChannels(u) => ParseFormat(u);
    case WorkspaceConn(u, w) =>
      ParseFormat(u);
      ParseFormat(w);
    case ChannelConn(u, w, c) =>
      ParseFormat(u);
      ParseFormat(w);
      ParseFormat(c);
  }

  // The six families are injective and pairwise disjoint: a printed key names one entity only.
  lemma PrintInjective(a: Key, b: Key)
    requires Print(a) == Print(b)
    ensures a == b
  {
    ReadPrinted(a);
    ReadPrinted(b);
  }

  lemma RefRoundTrip(ref: ChannelRef)
    ensures ParseRef(PrintRef(ref)) == Some(ref)
  {
    var head, rest := FormatInt(ref.workspace), FormatInt(ref.channel);
    FirstColonOf(head, rest);
    ParseFormat(ref.workspace);
    ParseFormat(ref.channel);
    assert PrintRef(ref)[..|head|] == head;
    assert PrintRef(ref)[|head| + 1..] == rest;
  }

  lemma PrintRefInjective(a: ChannelRef, b: ChannelRef)
    requires PrintRef(a) == PrintRef(b)
    ensures a == b
  {
    RefRoundTrip(a);
    RefRoundTrip(b);
  }
}
