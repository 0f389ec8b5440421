/** The content truncator (project_analyzer.py:55-62): text longer than the
    limit keeps its first and last `maxLength / 2` characters around an
    elision marker. */
module Truncation {

  /** The elision marker placed between the kept head and tail. */
  const MARKER: string := "\n...(内容已截断)...\n"

  /** Python's `s[-k:]`. For `k == 0` this is `s[-0:]`, the whole string. */
  function TailSlice(s: string, k: nat): string
    requires k <= |s|
  {
    if k == 0 then s else s[|s| - k..]
  }

  /** `truncate_content(content, maxLength)`. */
  function TruncateContent(content: string, maxLength: nat): (r: string)
    ensures |content| > maxLength && maxLength >= 2 ==> |r| == 2 * (maxLength / 2) + |MARKER|
  {
    if |content| <= maxLength then content
    else
      var half := maxLength / 2;
      content[..half] + MARKER + TailSlice(content, half)
  }

  /** Text within the limit comes back unchanged. */
  lemma TruncateShortIsIdentity(content: string, maxLength: nat)
    requires |content| <= maxLength
    ensures TruncateContent(content, maxLength) == content
  {
  }

  /** Longer text: the head half, the marker, then the tail half, each
      visible as a slice of the result. */
  lemma TruncateLongShape(content: string, maxLength: nat)
    requires |content| > maxLength >= 2
    ensures var r, h := TruncateContent(content, maxLength), maxLength / 2;
      && |r| == 2 * h + |MARKER|
      && r[..h] == content[..h]
      && r[h..h + |MARKER|] == MARKER
      && r[h + |MARKER|..] == content[|content| - h..]
  {
  }

  /** The result of truncating is longer than the limit itself, so a caller
      cannot rely on the outcome fitting within `maxLength`. */
  lemma TruncateExceedsLimit(content: string, maxLength: nat)
    requires |content| > maxLength
    ensures |TruncateContent(content, maxLength)| > maxLength
  {
  }

  /** With the analyzer's own limit a long bundle becomes exactly 8015 characters. */
  lemma TruncateAtAnalyzerLimit(content: string)
    requires |content| > 8000
    ensures |TruncateContent(content, 8000)| == 8015
  {
  }

  /** For a limit of at least 2, truncating twice is the same as once: the
      head and tail of the first result are the head and tail of the input. */
  lemma TruncateIdempotent(content: string, maxLength: nat)
    requires maxLength >= 2
    ensures TruncateContent(TruncateContent(content, maxLength), maxLength)
         == TruncateContent(content, maxLength)
  {
    if |content| > maxLength {
      var r, h := TruncateContent(content, maxLength), maxLength / 2;
      TruncateLongShape(content, maxLength);
      assert r == r[..h] + MARKER + r[h + |MARKER|..];
      assert r[|r| - h..] == r[h + |MARKER|..];
    }
  }

  /** Python's `content[-0:]` quirk: with a limit below 2 the half length is
      0 and the "tail" is the whole text, so the marker is prepended to all
      of it. */
  lemma TruncateQuirkKeepsEverything(content: string, maxLength: nat)
    requires maxLength < 2 && |content| > maxLength
    ensures TruncateContent(content, maxLength) == MARKER + content
  {
    assert content[..maxLength / 2] == [];
  }

  /** At the quirk truncation is not idempotent: every pass prepends another marker. */
  lemma TruncateQuirkNotIdempotent(content: string, maxLength: nat)
    requires maxLength < 2 && |content| > maxLength
    ensures TruncateContent(TruncateContent(content, maxLength), maxLength)
         != TruncateContent(content, maxLength)
  {
    TruncateQuirkKeepsEverything(content, maxLength);
    TruncateQuirkKeepsEverything(MARKER + content, maxLength);
    assert |MARKER + (MARKER + content)| > |MARKER + content|;
  }
}
