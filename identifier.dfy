/** Board identification by bootloader board id
    (flight_controller/Identifier.py): a two-entry table from board type to
    platform and its inverse built by dict comprehension. Talking to the
    bootloader itself is not modelled. */
module Identifier {
  import opened Base
  import opened Typedefs

  /** corresponding_platform. */
  const CorrespondingPlatform: map<int, Platform> := map[9 := Pixhawk1, 50 := Pixhawk4]

  /** corresponding_board_type: the comprehension that swaps keys and values. */
  function CorrespondingBoardType(): (m: map<Platform, int>)
    ensures forall t :: t in CorrespondingPlatform ==>
      CorrespondingPlatform[t] in m && m[CorrespondingPlatform[t]] == t
    ensures forall p :: p in m ==> m[p] in CorrespondingPlatform && CorrespondingPlatform[m[p]] == p
  {
    map t | t in CorrespondingPlatform :: CorrespondingPlatform[t] := t
  }

  /** get_board_platform: the table entry, or UnsupportedPlatform. */
  function GetBoardPlatform(boardType: int): (r: Result<Platform>)
    ensures r.Ok? <==> boardType == 9 || boardType == 50
    ensures boardType == 9 ==> r == Ok(Pixhawk1)
    ensures boardType == 50 ==> r == Ok(Pixhawk4)
    ensures r.Err? ==> r.error == UnsupportedPlatform
  {
    if boardType in CorrespondingPlatform then Ok(CorrespondingPlatform[boardType])
    else Err(UnsupportedPlatform)
  }

  /** get_platform_board_type: the inverse entry, or UnsupportedBoardType;
      a board type of 0 would count as missing, as `not board_type` does. */
  function GetPlatformBoardType(p: Platform): (r: Result<int>)
    ensures r.Ok? <==> p == Pixhawk1 || p == Pixhawk4
    ensures p == Pixhawk1 ==> r == Ok(9)
    ensures p == Pixhawk4 ==> r == Ok(50)
    ensures r.Err? ==> r.error == UnsupportedBoardType
  {
    var m := CorrespondingBoardType();
    assert m == map[Pixhawk1 := 9, Pixhawk4 := 50];
    if p in m && m[p] != 0 then Ok(m[p]) else Err(UnsupportedBoardType)
  }

  /** Board type -> platform -> board type is the identity on supported ids. */
  lemma BoardTypeRoundTrip(boardType: int)
    requires GetBoardPlatform(boardType).Ok?
    ensures GetPlatformBoardType(GetBoardPlatform(boardType).value) == Ok(boardType)
  {
  }

  /** Platform -> board type -> platform is the identity on supported platforms. */
  lemma PlatformRoundTrip(p: Platform)
    requires GetPlatformBoardType(p).Ok?
    ensures GetBoardPlatform(GetPlatformBoardType(p).value) == Ok(p)
  {
  }

  /** Every identified board is a serial board. */
  lemma IdentifiedBoardsAreSerial(boardType: int)
    requires GetBoardPlatform(boardType).Ok?
    ensures TypeOf(GetBoardPlatform(boardType).value) == SerialType
  {
  }
}
