/**
  Building the context and the prompt from the search results: every result
  becomes a block naming the document and quoting at most the first 2000
  characters of its text, the blocks are joined by a blank line, and the
  context and the question are put into a fixed Spanish template.
 */
module Compose {
  import opened Text
  import opened Knowledge

  datatype Option<T> = None | Some(value: T)

  /** How many characters of a document's text go into its block. */
  const ContentLimit: nat := 2000

  const DocumentLabel := "Documento: "
  const ContentLabel := "\nContenido: "
  const BlockSeparator := "\n\n"

  /** The lines of a block before the quoted text. */
  function BlockHead(doc: string): string {
    DocumentLabel + doc + ContentLabel
  }

  /** One block of the context: the labelled file name and the start of its text. */
  function Block(doc: string, content: string): (b: string)
    ensures BlockHead(doc) <= b
    ensures b[|BlockHead(doc)|..] <= content
    ensures |b| == |BlockHead(doc)| + Min(ContentLimit, |content|)
  {
    BlockHead(doc) + Truncate(content, ContentLimit)
  }

  /** A text of at most 2000 characters is quoted whole. */
  lemma ShortContentQuotedWhole(doc: string, content: string)
    requires |content| <= ContentLimit
    ensures Block(doc, content) == BlockHead(doc) + content
  {
  }

  /** One block per result, in result order. */
  function Blocks(results: seq<Entry>): (bs: seq<string>)
    ensures |bs| == |results|
    ensures forall k :: 0 <= k < |results| ==> bs[k] == Block(results[k].0, results[k].1)
  {
    seq(|results|, k requires 0 <= k < |results| => Block(results[k].0, results[k].1))
  }

  /** The context: the blocks joined by a blank line. It is empty exactly when
      there are no results, and otherwise opens with the first result's label
      and ends with the last result's block. */
  function Context(results: seq<Entry>): (r: string)
    ensures r == "" <==> results == []
    ensures results != [] ==> BlockHead(results[0].0) <= r
    ensures results != [] ==> EndsWith(r, Block(results[|results| - 1].0, results[|results| - 1].1))
  {
    var bs := Blocks(results);
    assert results != [] ==> BlockHead(results[0].0) <= bs[0] <= Join(BlockSeparator, bs);
    Join(BlockSeparator, bs)
  }

  /** The block of result `k` stands in the context between the context of the
      results before it and the context of the results after it, separated from
      each neighbour by one blank line. */
  lemma ContextAround(results: seq<Entry>, k: nat)
    requires k < |results|
    ensures Context(results) ==
      Context(results[..k]) + (if 0 < k then BlockSeparator else "")
      + Block(results[k].0, results[k].1)
      + (if k + 1 < |results| then BlockSeparator else "") + Context(results[k + 1..])
  {
    var bs := Blocks(results);
    assert bs[..k] == Blocks(results[..k]);
    assert bs[k + 1..] == Blocks(results[k + 1..]);
    assert Context(results[..k]) == Join(BlockSeparator, bs[..k]);
    assert Context(results[k + 1..]) == Join(BlockSeparator, bs[k + 1..]);
    assert Context(results) == Join(BlockSeparator, bs);
    JoinAround(BlockSeparator, bs, k);
  }

  /** The context of no results is empty, that of one result is its block. */
  lemma ContextSmall(results: seq<Entry>)
    requires |results| <= 1
    ensures Context(results) == if results == [] then "" else Block(results[0].0, results[0].1)
  {
  }

  const Instruction := "Basado en los siguientes documentos sobre energía fotovoltaica, responde la pregunta de forma precisa y utilizando datos textuales exactos:"
  const QuestionLabel := "Pregunta: "
  const AnswerLabel := "Respuesta:"

  /** Text of the template before the context, between context and question, and after the question. */
  const Opening := Instruction + "\n\n"
  const Middle := "\n\n" + QuestionLabel
  const Closing := "\n\n" + AnswerLabel

  /** The template's shape: fixed opening, the context, fixed middle, the query, fixed closing. */
  function Fill(opening: string, middle: string, closing: string, context: string, query: string): string {
    opening + context + middle + query + closing
  }

  /** Reads a filled template back into context and query, given the context's length. */
  function Unfill(opening: string, middle: string, closing: string, p: string, contextLength: nat): Option<(string, string)> {
    var cEnd := |opening| + contextLength;
    var qStart := cEnd + |middle|;
    if qStart + |closing| <= |p| && opening <= p && p[cEnd..qStart] == middle && EndsWith(p, closing)
    then Some((p[|opening|..cEnd], p[qStart..|p| - |closing|]))
    else None
  }

  /** Where the pieces of a filled template stand. */
  lemma FillLayout(opening: string, middle: string, closing: string, context: string, query: string)
    ensures opening <= Fill(opening, middle, closing, context, query)
    ensures OccursAt(context, Fill(opening, middle, closing, context, query), |opening|)
    ensures OccursAt(middle + query, Fill(opening, middle, closing, context, query), |opening| + |context|)
    ensures EndsWith(Fill(opening, middle, closing, context, query), closing)
  {
    var p := Fill(opening, middle, closing, context, query);
    var cEnd := |opening| + |context|;
    assert p[..|opening|] == opening;
    assert p[|opening|..cEnd] == context;
    assert p[cEnd..cEnd + |middle + query|] == middle + query;
    assert p[|p| - |closing|..] == closing;
  }

  /** A filled template reads back to its context and query. */
  lemma FillReadsBack(opening: string, middle: string, closing: string, context: string, query: string)
    ensures Unfill(opening, middle, closing, Fill(opening, middle, closing, context, query), |context|) == Some((context, query))
  {
    var p := Fill(opening, middle, closing, context, query);
    var cEnd := |opening| + |context|;
    var qStart := cEnd + |middle|;
    assert p[..|opening|] == opening;
    assert p[|opening|..cEnd] == context;
    assert p[cEnd..qStart] == middle;
    assert p[qStart..|p| - |closing|] == query;
    assert p[|p| - |closing|..] == closing;
  }

  /** Whatever reads back is the template filled with what it reads back to. */
  lemma UnfillSound(opening: string, middle: string, closing: string, p: string, contextLength: nat)
    requires Unfill(opening, middle, closing, p, contextLength).Some?
    ensures |Unfill(opening, middle, closing, p, contextLength).value.0| == contextLength
    ensures Fill(opening, middle, closing, Unfill(opening, middle, closing, p, contextLength).value.0,
                 Unfill(opening, middle, closing, p, contextLength).value.1) == p
  {
    var cEnd := |opening| + contextLength;
    var qStart := cEnd + |middle|;
    var qEnd := |p| - |closing|;
    var c, q := p[|opening|..cEnd], p[qStart..qEnd];
    assert p[..|opening|] == opening;
    assert p[qEnd..] == closing;
    assert p == p[..|opening|] + c + p[cEnd..qStart] + q + p[qEnd..];
  }

  /** The prompt sent to the language model. It opens with the instruction and a
      blank line, holds the context right after them, then a blank line,
      "Pregunta: " and the query, ends with a blank line and "Respuesta:", and
      reads back to its context and query. */
  function Prompt(context: string, query: string): (p: string)
    ensures Opening <= p
    ensures OccursAt(context, p, |Opening|)
    ensures OccursAt(Middle + query, p, |Opening| + |context|)
    ensures EndsWith(p, Closing)
    ensures ParsePrompt(p, |context|) == Some((context, query))
  {
    FillLayout(Opening, Middle, Closing, context, query);
    FillReadsBack(Opening, Middle, Closing, context, query);
    Fill(Opening, Middle, Closing, context, query)
  }

  /** Reads a prompt back into its context and query, given the context's length. */
  function ParsePrompt(p: string, contextLength: nat): Option<(string, string)> {
    Unfill(Opening, Middle, Closing, p, contextLength)
  }

  /** Whatever reads back was built by the template from what it reads back to. */
  lemma ParsePromptSound(p: string, contextLength: nat)
    requires ParsePrompt(p, contextLength).Some?
    ensures |ParsePrompt(p, contextLength).value.0| == contextLength
    ensures Prompt(ParsePrompt(p, contextLength).value.0, ParsePrompt(p, contextLength).value.1) == p
  {
    UnfillSound(Opening, Middle, Closing, p, contextLength);
  }
}
