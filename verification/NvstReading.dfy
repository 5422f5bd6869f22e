/** What the codec makes of frames it did not print itself: any members, in any order, of any type. */
module NvstReading {
  import opened Wrappers
  import opened Signals
  import opened Json
  import opened Values
  import opened Nvst

  // ---------------------------------------------------------------- the payload

  /** The text of the last string member of this name, empty without one. */
  function LastText(members: seq<Member>, key: string): string {
    if members == [] then ""
    else
      var m := members[|members| - 1];
      if m.key == key && m.value.JString? then m.value.text else LastText(members[..|members| - 1], key)
  }

  /** The value of the last number member of this name, 0 without one. */
  function LastInt(members: seq<Member>, key: string): int {
    if members == [] then 0
    else
      var m := members[|members| - 1];
      if m.key == key && m.value.JNumber? then Trunc(m.value.literal) else LastInt(members[..|members| - 1], key)
  }

  /** The member has a type its field can take: null always, and a name that no field has any type. */
  predicate WellTyped(m: Member) {
    && (m.key in {"type", "sdp", "candidate", "sdpMid"} ==> m.value.JString? || m.value.JNull?)
    && (m.key == "sdpMLineIndex" ==>
          m.value.JNull? ||
          (m.value.JNumber? && IntegerEnd(m.value.literal) == Some(|m.value.literal|)
           && -0x8000_0000_0000_0000 <= Trunc(m.value.literal) < 0x8000_0000_0000_0000))
  }

  predicate AllWellTyped(members: seq<Member>) { forall i :: 0 <= i < |members| ==> WellTyped(members[i]) }

  lemma {:induction false} LastIntFits(members: seq<Member>)
    requires AllWellTyped(members)
    ensures -0x8000_0000_0000_0000 <= LastInt(members, "sdpMLineIndex") < 0x8000_0000_0000_0000
  {
    if members != [] {
      assert WellTyped(members[|members| - 1]);
      hide WellTyped;
      LastIntFits(members[..|members| - 1]);
    }
  }

  function Payload(members: seq<Member>): Inner
    requires AllWellTyped(members)
  {
    LastIntFits(members);
    Inner(LastText(members, "type"), LastText(members, "sdp"), LastText(members, "candidate"), LastText(members, "sdpMid"),
          LastInt(members, "sdpMLineIndex"))
  }

  lemma OneMember(members: seq<Member>)
    requires members != [] && AllWellTyped(members)
    ensures AllWellTyped(members[..|members| - 1])
    ensures DecodeMember(Payload(members[..|members| - 1]), members[|members| - 1]) == Some(Payload(members))
  {
    var init, m := members[..|members| - 1], members[|members| - 1];
    assert WellTyped(m);
  }

  /**
   The payload of any list of members: each field is the last value given for it,
   whatever other members there are and wherever; and there is no payload exactly
   when a member has a type its field cannot take.
   */
  lemma {:induction false} DecodeMembersExactly(members: seq<Member>)
    ensures DecodeMembers(members) == if AllWellTyped(members) then Some(Payload(members)) else None
  {
    if members != [] {
      var init, m := members[..|members| - 1], members[|members| - 1];
      DecodeMembersExactly(init);
      if AllWellTyped(members) {
        OneMember(members);
      } else if AllWellTyped(init) {
        assert forall i :: 0 <= i < |init| ==> init[i] == members[i];
        assert !WellTyped(m);
        IllTyped(Payload(init), m);
      } else {
        var i :| 0 <= i < |init| && !WellTyped(init[i]);
        assert members[i] == init[i];
      }
    }
  }

  lemma IllTyped(inner: Inner, m: Member)
    requires !WellTyped(m)
    ensures DecodeMember(inner, m) == None
  {
  }

  /** The text of peer_msg.msg: an object with well-typed members and a type is a payload, all else is none. */
  lemma TextIsPayloadExactly(text: string)
    ensures InnerOf(text) == match ParseJson(text)
                             case Some(JObject(members)) =>
                               if AllWellTyped(members) && LastText(members, "type") != "" then Some(Payload(members)) else None
                             case _ => None
  {
    if ParseJson(text).Some? && ParseJson(text).value.JObject? {
      DecodeMembersExactly(ParseJson(text).value.members);
    }
    assert text == "" ==> ParseJson(text) == None;
    hide DecodeMembers;
  }

  // ------------------------------------------------------------------ the envelope

  /** The last member of a name is the one that counts. */
  lemma {:induction false} LastMemberCounts(members: seq<Member>, i: nat)
    requires i < |members| && forall j :: i < j < |members| ==> members[j].key != members[i].key
    ensures members[i].key in FromMembers(members) && FromMembers(members)[members[i].key] == FromJson(members[i].value)
  {
    if i < |members| - 1 {
      LastMemberCounts(members[..|members| - 1], i);
    }
  }

  /** A number of either kind is read as an int; everything else is 0. */
  lemma OddNumbersAreZero(a: Any)
    ensures a.Int? ==> AsInt(a) == a.n
    ensures a.Float? ==> AsInt(a) == Trunc(a.literal)
    ensures !a.Int? && !a.Float? ==> AsInt(a) == 0
  {
  }

  /** Only an object, or null for the nil map, is a message at all. */
  lemma ParsesExactly(data: string)
    ensures Parse(data).Some? <==> ParseJson(data).Some? && (ParseJson(data).value.JObject? || ParseJson(data).value.JNull?)
  {
  }
}
