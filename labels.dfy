/**
 * The Smack label validator `rules` (utils/chsmack.c:49-74).
 *
 * `rules` returns 1 (reject) or 0 (accept); here `reject` is a bool. The value
 * `ch` it compares is a C `char`, whose signedness the platform chooses, so the
 * model takes it as the explicit parameter `signedChar`.
 */
module Labels {
  import opened CStrings

  /** LSIZE: the longest label, in bytes, not counting its terminating NUL. */
  const LabelSize: nat := 23

  /**
   * The value `ch = label[idx]` receives: with a signed `char`, bytes 0x80..0xFF
   * are negative.
   */
  function CharValue(b: Byte, signedChar: bool): (ch: int)
    ensures -0x80 <= ch < 0x100
    ensures b < 0x80 ==> ch == b
    ensures b >= 0x80 ==> (ch < 0 <==> signedChar)
  {
    if signedChar && b >= 0x80 then b - 0x100 else b
  }

  /**
   * The characters the scan stops at: '/', '\', the single quote, '*', DEL and
   * every value below 0x1F. The double quote and 0x1F itself are not among them.
   */
  predicate Forbidden(ch: int)
  {
    ch == 0x2F || ch == 0x5C || ch == 0x27 || ch == 0x2A || ch == 0x7F || ch < 0x1F
  }

  predicate Allowed(b: Byte, signedChar: bool)
  {
    !Forbidden(CharValue(b, signedChar))
  }

  /**
   * A label the validator is meant to accept: at most LabelSize bytes, not
   * starting with '-', and no forbidden character anywhere. The empty label
   * is one of them.
   */
  predicate ValidLabel(s: seq<Byte>, signedChar: bool)
  {
    && |s| <= LabelSize
    && (|s| == 0 || s[0] != Dash)
    && forall i :: 0 <= i < |s| ==> Allowed(s[i], signedChar)
  }

  /**
   * The labels the loop as written accepts: the same, except that the last
   * character is never held against the label.
   */
  predicate AcceptedAsWritten(s: seq<Byte>, signedChar: bool)
  {
    && |s| <= LabelSize
    && (|s| == 0 || s[0] != Dash)
    && forall i :: 0 <= i < |s| - 1 ==> Allowed(s[i], signedChar)
  }

  /**
   * `rules` exactly as written: `ch = label[idx++]` moves past a forbidden
   * character before the `break`, so a forbidden last character leaves
   * `idx == len` and the label passes.
   */
  method RulesAsWritten(s: seq<Byte>, signedChar: bool) returns (reject: bool)
    ensures reject <==> !AcceptedAsWritten(s, signedChar)
  {
    var idx := 0;
    var len := |s|;
    if len > LabelSize {
      return true;
    }
    if At(s, idx) != Dash {
      while idx < len
        invariant 0 <= idx <= len
        invariant forall k :: 0 <= k < idx ==> Allowed(s[k], signedChar)
      {
        var ch := CharValue(s[idx], signedChar);
        idx := idx + 1;
        if Forbidden(ch) {
          break;
        }
      }
      return idx < len;
    }
    return true;
  }

  /**
   * `rules` with the character tested before `idx` moves past it: the scan
   * stops at the first forbidden character, wherever it is.
   */
  method Rules(s: seq<Byte>, signedChar: bool) returns (reject: bool)
    ensures reject <==> !ValidLabel(s, signedChar)
  {
    var idx := 0;
    var len := |s|;
    if len > LabelSize {
      return true;
    }
    if At(s, idx) != Dash {
      while idx < len
        invariant 0 <= idx <= len
        invariant forall k :: 0 <= k < idx ==> Allowed(s[k], signedChar)
      {
        var ch := CharValue(s[idx], signedChar);
        if Forbidden(ch) {
          break;
        }
        idx := idx + 1;
      }
      return idx < len;
    }
    return true;
  }

  /** Whatever its content, a label longer than LabelSize is rejected. */
  lemma LongLabelRejected(s: seq<Byte>, signedChar: bool)
    requires |s| > LabelSize
    ensures !ValidLabel(s, signedChar) && !AcceptedAsWritten(s, signedChar)
  {
  }

  /** A label that starts with '-' is rejected. */
  lemma DashLabelRejected(s: seq<Byte>, signedChar: bool)
    requires |s| > 0 && s[0] == Dash
    ensures !ValidLabel(s, signedChar) && !AcceptedAsWritten(s, signedChar)
  {
  }

  /** The empty label passes: the loop never runs and `idx == len`. */
  lemma EmptyLabelAccepted(signedChar: bool)
    ensures ValidLabel([], signedChar) && AcceptedAsWritten([], signedChar)
  {
  }

  /**
   * Among ASCII bytes the forbidden ones are exactly '/', '\', the single
   * quote, '*', DEL and those below 0x1F; the double quote and 0x1F pass.
   */
  lemma ForbiddenAsciiBytes(b: Byte, signedChar: bool)
    requires b < 0x80
    ensures !Allowed(b, signedChar) <==> (b in {0x2F, 0x5C, 0x27, 0x2A, 0x7F} || b < 0x1F)
    ensures Allowed(0x22, signedChar) && Allowed(0x1F, signedChar)
  {
  }

  /** Bytes 0x80..0xFF pass exactly when `char` is unsigned. */
  lemma HighBytesFollowSignedness(b: Byte, signedChar: bool)
    requires b >= 0x80
    ensures Allowed(b, signedChar) <==> !signedChar
  {
  }

  /**
   * The loop as written accepts every label the intended rule accepts, and
   * differs from it only on labels whose last character is forbidden.
   */
  lemma AsWrittenDiffersOnlyAtLastChar(s: seq<Byte>, signedChar: bool)
    ensures ValidLabel(s, signedChar) ==> AcceptedAsWritten(s, signedChar)
    ensures AcceptedAsWritten(s, signedChar) && !ValidLabel(s, signedChar) ==>
              |s| > 0 && !Allowed(s[|s| - 1], signedChar)
  {
  }

  /** "a/" is accepted by the loop as written although '/' is forbidden. */
  lemma TrailingSlashAcceptedAsWritten(signedChar: bool)
    ensures AcceptedAsWritten([0x61, 0x2F], signedChar)
    ensures !ValidLabel([0x61, 0x2F], signedChar)
  {
    assert !Allowed([0x61, 0x2F][1], signedChar);
  }
}
