/** The colour table that maps a pattern cell's colour index to a CSS colour
    (characters.js:63-75). */
module Palette {

  /** The value of a JavaScript property lookup: present, or `undefined`. */
  datatype Option<T> = None | Some(value: T)

  /** The `colors` object, keyed by colour index. */
  const Colors: map<int, string> := map[
    0 := "transparent",
    1 := "#FFFFFF",   // white outline and beard
    2 := "#FFE4C4",   // skin tone
    3 := "#1A1A1A",   // eyes
    4 := "#FF69B4",   // rosy cheeks
    5 := "#C41E3A",   // mouth and nose
    6 := "#DC143C",   // suit red
    7 := "#2C2C2C",   // boots and belt
    8 := "#228B22",   // tree green
    9 := "#FFD700",   // gold ornaments
    10 := "#8B4513"   // brown trunk
  ]

  /** `colors[index]`: defined exactly for the indices 0 to 10, `undefined` otherwise. */
  function ColorOf(index: int): (r: Option<string>)
    ensures r.Some? <==> 0 <= index <= 10
    ensures index == 0 ==> r == Some("transparent")
    ensures 1 <= index <= 10 ==> r.Some? && r.value != "transparent" && |r.value| == 7 && r.value[0] == '#'
    ensures 1 <= index <= 10 ==> forall k :: 1 <= k < 7 ==> r.value[k] in "0123456789ABCDEF"
  {
    if index in Colors then Some(Colors[index]) else None
  }
}
