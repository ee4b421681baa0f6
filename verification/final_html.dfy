/**
 * `getFinalHtml`: the document is rendered from the block "root" and the
 * open-tracking pixel is added once: before the first `</body>` if there is
 * one, otherwise inside a minimal HTML shell. Rendering itself belongs to a
 * library outside this model and is a parameter here.
 */
module FinalHtml {
  import opened Blocks
  import opened Strings

  /** The path every tracking pixel's URL contains; its presence means "already tracked". */
  const Marker: string := "/track/open/"

  const BodyClose: string := "</body>"

  /** `OPEN_TRACKER_HTML`, character for character: the pixel's tag around its URL's path. */
  const OpenTracker: string := TrackerHead + Marker + TrackerTail
  const TrackerHead: string := "\n<img\n  src=\"https://staging-email-master-apis.client2.nexeor.com"
  const TrackerTail: string :=
    "{{log_id}}\"\n  width=\"1\"\n  height=\"1\"\n"
    + "  style=\"display:block;border:0;outline:none;width:1px;height:1px;\"\n  alt=\"\"\n/>\n"

  /** The block the document is rendered from. */
  const RenderRoot: Id := "root"

  /** The shell's text before and after the rendered html, once trimmed. */
  const ShellHead: string := "<!DOCTYPE html>\n<html>\n  <body>\n    "
  const ShellTail: string := "\n    " + OpenTracker + "\n  </body>\n</html>"

  /** The template literal of the no-body case, before `.trim()`. */
  function Shell(html: string): string {
    ['\n'] + (ShellHead + html + ShellTail) + ['\n']
  }

  /** The post-processing of the rendered string. */
  function PostProcess(html: string): (r: string)
    ensures Includes(html, Marker) ==> r == html
    ensures !Includes(html, Marker) && Includes(html, BodyClose) ==> |r| == |html| + |OpenTracker|
  {
    if Includes(html, Marker) then html
    else if Includes(html, BodyClose) then ReplaceFirst(html, BodyClose, OpenTracker + BodyClose)
    else Trim(Shell(html))
  }

  /** `getFinalHtml(document)`, with the renderer given as `render(document, rootBlockId)`. */
  function GetFinalHtml(document: Doc, render: (Doc, Id) -> string): (r: string)
    ensures Includes(r, Marker)
    ensures Includes(render(document, RenderRoot), Marker) ==> r == render(document, RenderRoot)
  {
    MarkerAlwaysPresent(render(document, RenderRoot));
    PostProcess(render(document, RenderRoot))
  }

  /** The pixel's own text carries the marker. */
  lemma TrackerHasMarker()
    ensures Includes(OpenTracker, Marker)
  {
    assert Marker[0..|Marker|] == Marker;
    OccursIncludes(Marker, Marker, 0);
    IncludesConcat(TrackerHead, Marker, TrackerTail, Marker);
  }

  /** Trimming the shell only drops the newline at each end, whatever the rendered html is. */
  lemma ShellTrimmed(html: string)
    ensures Trim(Shell(html)) == ShellHead + html + ShellTail
  {
    var inner := ShellHead + html + ShellTail;
    assert inner[0] == ShellHead[0] == '<';
    assert inner[|inner| - 1] == ShellTail[|ShellTail| - 1] == '>';
    TrimPadded(inner, '\n');
  }

  /** The three cases: already tracked, a body to inject into, or the shell. */
  lemma PostProcessCases(html: string)
    ensures Includes(html, Marker) ==> PostProcess(html) == html
    ensures !Includes(html, Marker) && Includes(html, BodyClose) ==>
      var i := Find(html, BodyClose).value;
      PostProcess(html) == html[..i] + OpenTracker + BodyClose + html[i + |BodyClose|..]
    ensures !Includes(html, Marker) && !Includes(html, BodyClose) ==>
      PostProcess(html) == ShellHead + html + ShellTail
  {
    if !Includes(html, Marker) {
      if Includes(html, BodyClose) {
        PostProcessBody(html);
      } else {
        PostProcessShell(html);
      }
    }
  }

  /** The body case: the pixel goes in front of the first `</body>`. */
  lemma PostProcessBody(html: string)
    requires !Includes(html, Marker) && Includes(html, BodyClose)
    ensures var i := Find(html, BodyClose).value;
      PostProcess(html) == html[..i] + OpenTracker + BodyClose + html[i + |BodyClose|..]
  {
    var i := Find(html, BodyClose).value;
    ReplaceAtFind(html, BodyClose, OpenTracker + BodyClose);
    ConcatRegroup(html[..i], OpenTracker, BodyClose, html[i + |BodyClose|..]);
  }

  /** The shell case: the trimmed template literal around the html. */
  lemma PostProcessShell(html: string)
    requires !Includes(html, Marker) && !Includes(html, BodyClose)
    ensures PostProcess(html) == ShellHead + html + ShellTail
  {
    ShellTrimmed(html);
  }

  /** Whatever was rendered, the result carries the tracker's marker. */
  lemma MarkerAlwaysPresent(html: string)
    ensures Includes(PostProcess(html), Marker)
  {
    TrackerHasMarker();
    PostProcessCases(html);
    if !Includes(html, Marker) {
      if Includes(html, BodyClose) {
        var i := Find(html, BodyClose).value;
        IncludesConcat(html[..i], OpenTracker, BodyClose + html[i + |BodyClose|..], Marker);
        ConcatAssoc(html[..i], OpenTracker, BodyClose, html[i + |BodyClose|..]);
      } else {
        IncludesConcat("\n    ", OpenTracker, "\n  </body>\n</html>", Marker);
        IncludesConcat(ShellHead + html, ShellTail, "", Marker);
        ConcatEmpty(ShellHead + html + ShellTail);
      }
    }
  }

  lemma ConcatAssoc<T>(a: seq<T>, b: seq<T>, c: seq<T>, d: seq<T>)
    ensures a + b + (c + d) == a + b + c + d
  {
  }

  lemma ConcatRegroup<T>(a: seq<T>, b: seq<T>, c: seq<T>, d: seq<T>)
    ensures a + (b + c) + d == a + b + c + d
  {
  }

  lemma ConcatEmpty<T>(a: seq<T>)
    ensures a + [] == a
  {
  }

  /** Post-processing twice adds nothing: the second pass finds the marker and stops. */
  lemma PostProcessIdempotent(html: string)
    ensures PostProcess(PostProcess(html)) == PostProcess(html)
  {
    MarkerAlwaysPresent(html);
  }
}
