/** lib/util: the blankness test the request validation uses. */
module Util {
  import opened Wrappers

  /**
   * `isBlank`: an absent string or the empty string. There is no trimming,
   * so a string made of spaces is not blank.
   */
  function IsBlank(item: Option<string>): (b: bool)
    ensures b <==> item.None? || |item.value| == 0
    ensures item.Some? && item.value != "" ==> !b
  {
    item == None || item == Some("")
  }
}
