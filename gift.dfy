/** The shop's gift record and its `giftId()` fallback. */
module Gifts {
  import opened Strings

  /** The range of a Kotlin `Int`. */
  type Int = x: int | -0x8000_0000 <= x < 0x8000_0000

  /** A gift, without its `brand` and `category` choices and its `price`,
      which `giftId()` does not read. */
  datatype Gift = Gift(
    description: string,
    endTime: string,
    giftNo: Int,
    id: string,
    giftId: string,
    image: string,
    name: string,
    qrCode: string)

  /** `Gift()`: every field at its default. */
  const DefaultGift: Gift := Gift("", "", 0, "", "", "", "", "")

  /** `giftId()`: the gift id when it is not blank, otherwise the record id.
      The result is one of the two ids, and it is blank only when both are. */
  function GiftId(g: Gift): (r: string)
    ensures !IsBlank(g.giftId) ==> r == g.giftId
    ensures IsBlank(g.giftId) ==> r == g.id
    ensures IsBlank(r) <==> IsBlank(g.giftId) && IsBlank(g.id)
  {
    if !IsBlank(g.giftId) then g.giftId else g.id
  }

  /** A default gift has the empty id. */
  lemma DefaultGiftIdIsEmpty()
    ensures GiftId(DefaultGift) == ""
  {
  }

  /** Only the two id fields decide the result, and storing the result back
      as the gift id changes nothing. */
  lemma GiftIdReadsOnlyIds(a: Gift, b: Gift)
    requires a.giftId == b.giftId && a.id == b.id
    ensures GiftId(a) == GiftId(b)
    ensures GiftId(a.(giftId := GiftId(a))) == GiftId(a)
  {
  }
}
