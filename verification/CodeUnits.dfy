/** Text as JavaScript and C# index and compare it: a sequence of UTF-16 code units. */
module CodeUnits {

  type CodeUnit = unit: int | 0 <= unit < 0x10000

  /** The length JavaScript gives a string: in UTF-16 code units. */
  function Utf16Length(s: string): nat {
    if s == "" then 0
    else Utf16Length(s[..|s| - 1]) + if s[|s| - 1] as int < 0x10000 then 1 else 2
  }
}
