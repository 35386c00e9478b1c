/** Checks on configured names and paths (src/config.rs, `valid_launchd_label`). */
module Names {
  predicate IsControl(ch: char) {
    var n := ch as int;
    n < 0x20 || 0x7F <= n < 0xA0
  }

  predicate IsWhitespace(ch: char) {
    var n := ch as int;
    || 0x9 <= n <= 0xD || n == 0x20 || n == 0x85 || n == 0xA0 || n == 0x1680 || 0x2000 <= n <= 0x200A
    || n == 0x2028 || n == 0x2029 || n == 0x202F || n == 0x205F || n == 0x3000
  }

  predicate ValidLaunchdLabel(jobLabel: string) {
    && jobLabel != ""
    && forall i :: 0 <= i < |jobLabel| ==> jobLabel[i] != '/' && !IsControl(jobLabel[i]) && !IsWhitespace(jobLabel[i])
  }

  /** A control character: C0, delete or C1. */
  predicate ControlPoint(n: int) {
    n <= 31 || 127 <= n <= 159
  }

  /** White space beyond the control characters: the spaces of the Unicode categories Zs, Zl and Zp. */
  predicate SpacePoint(n: int) {
    n in {32, 160, 5760, 8192, 8193, 8194, 8195, 8196, 8197, 8198, 8199, 8200, 8201, 8202, 8232, 8233, 8239, 8287, 12288}
  }

  /** A job label is valid exactly when it is not empty and holds no slash, no control character and no space. */
  lemma LabelCharacters(jobLabel: string)
    ensures ValidLaunchdLabel(jobLabel) <==>
              && |jobLabel| > 0
              && forall i :: 0 <= i < |jobLabel| ==>
                   var n := jobLabel[i] as int; n != 47 && !ControlPoint(n) && !SpacePoint(n)
  {
    assert forall ch: char :: IsControl(ch) || IsWhitespace(ch) <==> ControlPoint(ch as int) || SpacePoint(ch as int);
  }

  predicate IsAbsolute(path: string) {
    path != "" && path[0] == '/'
  }
}
