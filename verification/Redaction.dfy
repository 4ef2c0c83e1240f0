// Cutting a text to a length limit, as summaries and error texts are cut.
module Redaction {
  const TRUNCATED: string := "...(truncated)"

  // text[:limit], which counts from the end when the limit is negative.
  function Clip(text: string, limit: int): (clipped: string)
    ensures clipped <= text
    ensures 0 <= limit <= |text| ==> clipped == text[..limit]
  {
    if limit >= |text| then text
    else if limit >= 0 then text[..limit]
    else if |text| + limit >= 0 then text[..|text| + limit] else ""
  }

  function Truncate(text: string, limit: int): string {
    if |text| <= limit then text else Clip(text, limit) + TRUNCATED
  }
}
