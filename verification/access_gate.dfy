/** Who may use the bot. The allow-list is the configured string
    `allowed_user_ids`: either exactly `*` (everyone) or comma-separated user
    ids. A sender is let in when the list is the wildcard, when their id,
    written in decimal, is one of the fields, or, in a group chat, when some
    listed id is currently a member of that group. */
module AccessGate {
  import opened Text
  import opened Telegram

  /** The bot's configuration, read once at start-up. Only the allow-list
      takes part in decisions; the token and proxy are carried along. */
  datatype Config = Config(token: string, proxy: string, allowedUserIds: string)

  const Wildcard: string := "*"

  /** The allow-list fields, exactly as split on commas: no trimming, and an
      empty field wherever two commas meet or the string is empty. */
  function AllowedIds(config: Config): seq<string>
  {
    Split(config.allowedUserIds, ',')
  }

  /** The sender's id, rendered in decimal, is literally one of the fields. */
  predicate Listed(config: Config, senderId: int)
  {
    IntToDecimal(senderId) in AllowedIds(config)
  }

  /** Group and supergroup chats are the group chats; private chats,
      channels and the inline "sender" kind are not. */
  function IsGroupChat(kind: ChatType): (b: bool)
    ensures b <==> kind !in {Private, Channel, Sender}
  {
    kind == Group || kind == Supergroup
  }

  /** The statuses that count as being in the group. A restricted user, one
      who left and a banned one do not count. */
  function CountsAsMember(status: MemberStatus): (b: bool)
    ensures b <==> status !in {Restricted, Left, Banned}
  {
    status == Owner || status == Administrator || status == Member
  }

  predicate IsUserInGroup(oracle: MembershipOracle, id: string)
  {
    CountsAsMember(oracle(id))
  }

  /** Some id in `ids` is currently in the group. */
  predicate SomeMember(ids: seq<string>, oracle: MembershipOracle)
  {
    exists i :: 0 <= i < |ids| && IsUserInGroup(oracle, ids[i])
  }

  /** The verdict of the gate, and the ids it asked the platform about, in
      the order it asked. */
  datatype Decision = Decision(allowed: bool, lookups: seq<string>)

  /** The left-to-right search of the allow-list for an id that is in the
      group, stopping at the first one found. */
  function GroupSearch(ids: seq<string>, oracle: MembershipOracle): (d: Decision)
    ensures d.allowed <==> SomeMember(ids, oracle)
    ensures d.lookups <= ids
    ensures d.allowed ==> |d.lookups| >= 1 && IsUserInGroup(oracle, d.lookups[|d.lookups| - 1])
    ensures forall j :: 0 <= j < |d.lookups| - 1 ==> !IsUserInGroup(oracle, d.lookups[j])
    ensures !d.allowed ==> d.lookups == ids
  {
    if |ids| == 0 then
      Decision(false, [])
    else if IsUserInGroup(oracle, ids[0]) then
      Decision(true, [ids[0]])
    else
      var rest := GroupSearch(ids[1..], oracle);
      assert SomeMember(ids, oracle) ==> SomeMember(ids[1..], oracle) by {
        if SomeMember(ids, oracle) {
          var i :| 0 <= i < |ids| && IsUserInGroup(oracle, ids[i]);
          assert ids[1..][i - 1] == ids[i];
        }
      }
      assert SomeMember(ids[1..], oracle) ==> SomeMember(ids, oracle) by {
        if SomeMember(ids[1..], oracle) {
          var i :| 0 <= i < |ids[1..]| && IsUserInGroup(oracle, ids[1..][i]);
          assert ids[i + 1] == ids[1..][i];
        }
      }
      assert ids == [ids[0]] + ids[1..];
      Decision(rest.allowed, [ids[0]] + rest.lookups)
  }

  /** Whether the sender of a message in a chat of the given kind may use
      the bot. */
  function IsAllowed(config: Config, senderId: int, kind: ChatType, oracle: MembershipOracle): (d: Decision)
    ensures d.allowed <==>
              || config.allowedUserIds == Wildcard
              || Listed(config, senderId)
              || (IsGroupChat(kind) && SomeMember(AllowedIds(config), oracle))
    // The platform is asked about members only for an unlisted sender in a
    // group chat, never under the wildcard.
    ensures |d.lookups| > 0 ==>
              config.allowedUserIds != Wildcard && !Listed(config, senderId) && IsGroupChat(kind)
    // It is asked in list order, and it stops at the first member found.
    ensures d.lookups <= AllowedIds(config)
    ensures forall j :: 0 <= j < |d.lookups| - 1 ==> !IsUserInGroup(oracle, d.lookups[j])
    ensures d.allowed && |d.lookups| > 0 ==> IsUserInGroup(oracle, d.lookups[|d.lookups| - 1])
    // A refusal in a group chat comes only after asking about every id.
    ensures !d.allowed && IsGroupChat(kind) ==> d.lookups == AllowedIds(config)
    // Admission through the group always rests on a lookup that found a member.
    ensures d.allowed && |d.lookups| == 0 ==> config.allowedUserIds == Wildcard || Listed(config, senderId)
  {
    if config.allowedUserIds == Wildcard then
      Decision(true, [])
    else if Listed(config, senderId) then
      Decision(true, [])
    else if IsGroupChat(kind) then
      GroupSearch(AllowedIds(config), oracle)
    else
      Decision(false, [])
  }

  /** The search depends on the oracle only through the ids it asked about. */
  lemma GroupSearchFrame(ids: seq<string>, o1: MembershipOracle, o2: MembershipOracle)
    requires forall j :: 0 <= j < |GroupSearch(ids, o1).lookups| ==>
               o1(GroupSearch(ids, o1).lookups[j]) == o2(GroupSearch(ids, o1).lookups[j])
    ensures GroupSearch(ids, o1) == GroupSearch(ids, o2)
  {
  }

  /** The gate's verdict is determined by the membership answers for the ids
      in its own lookup trace: the trace lists every question it asks. */
  lemma OracleFrame(config: Config, senderId: int, kind: ChatType, o1: MembershipOracle, o2: MembershipOracle)
    requires forall j :: 0 <= j < |IsAllowed(config, senderId, kind, o1).lookups| ==>
               o1(IsAllowed(config, senderId, kind, o1).lookups[j]) ==
               o2(IsAllowed(config, senderId, kind, o1).lookups[j])
    ensures IsAllowed(config, senderId, kind, o1) == IsAllowed(config, senderId, kind, o2)
  {
  }

  /** A field with a space in it never matches a sender, because the decimal
      form of an id has no spaces: " 2" does not admit user 2. */
  lemma SpacedFieldNeverMatches(field: string, senderId: int)
    requires ' ' in field
    ensures field != IntToDecimal(senderId)
  {
  }

  /** With the list "1, 2", user 2 writing in a private chat is refused and
      no member lookup happens. */
  lemma SpacedListRefusesPrivateSender(oracle: MembershipOracle)
    ensures IsAllowed(Config("", "", "1, 2"), 2, Private, oracle) == Decision(false, [])
  {
  }
}
