/**
 * The diagram panel: an effect that renders the Mermaid source into a
 * container element, styles the resulting svg, and falls back to showing the
 * source when any step fails; with no source, a placeholder instead.
 */
module ArchitectureGraph {
  import opened Wrappers
  import opened Strings

  /** The nodes the effect places in the container. */
  datatype Node =
    | Spinner
    | DiagramDiv(id: string, className: string, text: string)
    | Svg(width: string, height: string, maxWidth: string)
    | Fallback(code: string)
    | Other

  /**
   * How the asynchronous steps end: the dynamic import throws, `initialize`
   * throws, `render` throws, or `render` returns. Mermaid's `render` is a
   * foreign call that may rework the document, so a successful one is given
   * as `effect`: the container's children when it returns, as a function of
   * the children it was called on (the one diagram element).
   */
  datatype Attempt = ImportFailed | InitializeFailed | RenderFailed | Rendered(effect: seq<Node> -> seq<Node>)

  function DiagramId(now: int): string {
    "mermaid-diagram-" + IntToString(now)
  }

  predicate IsSvg(n: Node) {
    n.Svg?
  }

  /** The index `querySelector('svg')` finds: the first svg, or `|nodes|` when there is none. */
  function FirstSvg(nodes: seq<Node>): (k: nat)
    ensures k <= |nodes|
    ensures k < |nodes| ==> IsSvg(nodes[k])
    ensures forall j :: 0 <= j < k ==> !IsSvg(nodes[j])
  {
    if nodes == [] then 0
    else if IsSvg(nodes[0]) then 0
    else
      var k := FirstSvg(nodes[1..]);
      assert forall j :: 1 <= j < k + 1 ==> nodes[j] == nodes[1..][j - 1];
      k + 1
  }

  /** `querySelector('svg')` followed by the three style writes: only the first svg changes. */
  function StyleFirstSvg(nodes: seq<Node>): (r: seq<Node>)
    ensures |r| == |nodes|
    ensures forall i :: 0 <= i < |nodes| ==> r[i] == if i == FirstSvg(nodes) then Svg("100%", "auto", "100%") else nodes[i]
  {
    if nodes == [] then []
    else if IsSvg(nodes[0]) then [Svg("100%", "auto", "100%")] + nodes[1..]
    else
      var rest := StyleFirstSvg(nodes[1..]);
      assert forall i :: 1 <= i < |nodes| ==> nodes[i] == nodes[1..][i - 1];
      [nodes[0]] + rest
  }

  /** Without any svg, nothing is styled. */
  lemma {:induction false} StyleWithoutSvg(nodes: seq<Node>)
    requires forall i :: 0 <= i < |nodes| ==> !IsSvg(nodes[i])
    ensures StyleFirstSvg(nodes) == nodes
  {
    if nodes != [] {
      StyleWithoutSvg(nodes[1..]);
      assert [nodes[0]] + nodes[1..] == nodes;
    }
  }

  /** The element the panel renders its diagram into. */
  class Container {
    var children: seq<Node>

    /** As first rendered: the loading spinner. */
    constructor ()
      ensures children == [Spinner]
    {
      children := [Spinner];
    }
  }

  /** The element appended before `render` is called. */
  function DiagramElement(code: string, now: int): Node {
    DiagramDiv(DiagramId(now), "mermaid", code)
  }

  /**
   * The container's contents once a full render attempt for `code` has
   * finished: the fallback after any failure; otherwise whatever `render`
   * left of the lone diagram element, with its first svg styled.
   */
  function AfterAttempt(code: string, attempt: Attempt, now: int): (nodes: seq<Node>)
    ensures !attempt.Rendered? ==> nodes == [Fallback(code)]
    ensures attempt.Rendered? ==>
      && |nodes| == |attempt.effect([DiagramElement(code, now)])|
      && forall i :: 0 <= i < |nodes| ==>
        nodes[i] == if i == FirstSvg(attempt.effect([DiagramElement(code, now)])) then Svg("100%", "auto", "100%")
                    else attempt.effect([DiagramElement(code, now)])[i]
  {
    match attempt
    case Rendered(effect) => StyleFirstSvg(effect([DiagramElement(code, now)]))
    case _ => [Fallback(code)]
  }

  /**
   * If `render` keeps the diagram element and places its output after it, the
   * container holds that element followed by the output, first svg styled.
   */
  lemma RenderAfterElement(code: string, attempt: Attempt, now: int, inserted: seq<Node>)
    requires attempt.Rendered? && attempt.effect([DiagramElement(code, now)]) == [DiagramElement(code, now)] + inserted
    ensures AfterAttempt(code, attempt, now) == [DiagramElement(code, now)] + StyleFirstSvg(inserted)
  {
    var nodes := [DiagramElement(code, now)] + inserted;
    assert nodes[1..] == inserted;
  }

  /** If `render` takes its output out of the container, nothing is left to style. */
  lemma RenderElsewhere(code: string, attempt: Attempt, now: int)
    requires attempt.Rendered? && attempt.effect([DiagramElement(code, now)]) == []
    ensures AfterAttempt(code, attempt, now) == []
  {
  }

  /** The panel's rendering: the placeholder without source, the container otherwise. */
  datatype Screen = NoArchitectureData | Panel

  class ArchitectureGraphState {
    var mermaidCode: string
    /**
     * `containerRef.current`: React attaches it to the panel's div, which is
     * rendered exactly when there is source, and detaches it otherwise.
     */
    var container: Container?

    /** The reference follows the rendering: a container exactly when there is source. */
    predicate Valid()
      reads this
    {
      container != null <==> mermaidCode != ""
    }

    /**
     * Mounting with `code`: the div is created (holding the spinner) when
     * there is source, then the effect runs once.
     */
    constructor (code: string, attempt: Attempt, now: int)
      ensures Valid() && mermaidCode == code
      ensures code != "" ==> fresh(container) && container.children == AfterAttempt(code, attempt, now)
    {
      mermaidCode := code;
      if code == "" {
        container := null;
      } else {
        container := new Container();
      }
      new;
      RenderMermaid(attempt, now);
    }

    function CurrentScreen(): (s: Screen)
      reads this
      ensures s == NoArchitectureData <==> mermaidCode == ""
    {
      if mermaidCode == "" then NoArchitectureData else Panel
    }

    /**
     * `renderMermaid`, with the asynchronous steps' outcome and `Date.now()`
     * as parameters. Nothing happens without a container or without source.
     */
    method RenderMermaid(attempt: Attempt, now: int)
      modifies container
      ensures container == old(container) && mermaidCode == old(mermaidCode)
      ensures container != null && mermaidCode == "" ==> container.children == old(container.children)
      ensures container != null && mermaidCode != "" ==> container.children == AfterAttempt(mermaidCode, attempt, now)
    {
      if container == null || mermaidCode == "" {
        return;
      }
      container.children := [];
      if attempt.ImportFailed? || attempt.InitializeFailed? {
        container.children := [Fallback(mermaidCode)];
        return;
      }
      var element := DiagramElement(mermaidCode, now);
      container.children := container.children + [element];
      assert container.children == [element];
      if attempt.RenderFailed? {
        container.children := [Fallback(mermaidCode)];
        return;
      }
      container.children := attempt.effect(container.children);
      container.children := StyleFirstSvg(container.children);
    }

    /**
     * A new `mermaidCode` property. React first updates the rendering (the
     * div is mounted with its spinner when source appears, unmounted when it
     * goes, kept otherwise), then the effect runs again exactly when the
     * value changed.
     */
    method Update(code: string, attempt: Attempt, now: int) returns (ran: bool)
      requires Valid()
      modifies this, container
      ensures Valid() && mermaidCode == code
      ensures ran <==> code != old(mermaidCode)
      ensures old(mermaidCode) == "" && code != "" ==> fresh(container)
      ensures old(mermaidCode) != "" && code != "" ==> container == old(container)
      ensures code != "" && !ran ==> container.children == old(container.children)
      ensures code != "" && ran ==> container.children == AfterAttempt(code, attempt, now)
    {
      ran := code != mermaidCode;
      if code == "" {
        container := null;
      } else if mermaidCode == "" {
        container := new Container();
      }
      mermaidCode := code;
      if ran {
        RenderMermaid(attempt, now);
      }
    }
  }
}
