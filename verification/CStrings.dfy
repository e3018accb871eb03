/** C strings: the characters, and a NUL behind the last one. */
module CStrings {

  // The character at position i; reading beyond the NUL is an error.
  function At(s: string, i: nat): char
    requires i <= |s|
  {
    if i < |s| then s[i] else '\0'
  }
}
