/**
 Prompt assembly of the /ask endpoint (host/server.py lines 80-85 and 100). The wording is the
 deployment's fixed text; what matters is its structure: the instruction, the code-block
 directive only for markdown answers, the context block, the question, and the answer cue with
 " in Markdown" only for markdown answers.
 */
module Prompt {
  import opened Text

  /** The requested answer format: `markdown`, or anything else (plain text). */
  datatype AnswerFormat = PlainText | Markdown

  /** Persona and grounding instruction that opens every prompt of the deployment. The lemmas
      below hold for any opening instruction. */
  const Instruction: string :=
    "You are the \"ChatWP Bot\" created by Aaron Edwards (@UglyRobotDev). Answer the question as truthfully as possible using the provided context, and if the answer is not contained within the text below, say \"I'm not sure\" and suggest looking for this information on [wordpress.org](https://wordpress.org)."

  /** The code-block directive added for markdown answers (`formatcode`). */
  const CodeDirective: string :=
    " " + "If the question includes a request for code, provide a code block directly from the context."

  /** The answer-cue suffix added for markdown answers (`formatstring`). */
  const MarkdownCue: string := " in Markdown"

  const ContextHeader: string := "\n\nContext:\n"
  const QuestionHeader: string := " \n\nQuestion:\n"

  function Directive(f: AnswerFormat): string {
    if f == Markdown then CodeDirective else ""
  }

  const AnswerWord: string := "\n\nAnswer"

  /** "\n\nAnswer in Markdown:" for markdown answers, "\n\nAnswer:" otherwise. */
  function AnswerCue(f: AnswerFormat): string {
    AnswerWord + (if f == Markdown then MarkdownCue else "") + ":"
  }

  /** The three parts of a concatenation can be sliced back out of it. */
  lemma SliceConcat3(a: string, b: string, c: string)
    ensures (a + b + c)[..|a|] == a
    ensures (a + b + c)[|a|..|a| + |b|] == b
    ensures (a + b + c)[|a| + |b|..] == c
  {
  }

  /** The prompt sent to the completion model, opening with `instruction`: instruction and
      optional directive, context block, then question and answer cue. */
  function Assemble(instruction: string, query: string, context: string, f: AnswerFormat): string {
    instruction + Directive(f) + (ContextHeader + context + QuestionHeader) + (query + AnswerCue(f))
  }

  /** The layout of every prompt: its length is the sum of its parts, it opens with the
      instruction and directive, the context block follows at once, and it ends with the
      question and answer cue, with nothing in between. */
  lemma AssembleLayout(instruction: string, query: string, context: string, f: AnswerFormat)
    ensures var p := Assemble(instruction, query, context, f);
      && |p| == |instruction| + |Directive(f)| + |ContextHeader + context + QuestionHeader|
                + |query + AnswerCue(f)|
      && HasPrefix(p, instruction + Directive(f))
      && OccursAt(p, ContextHeader + context + QuestionHeader, |instruction| + |Directive(f)|)
      && HasSuffix(p, query + AnswerCue(f))
  {
    SliceConcat3(instruction + Directive(f), ContextHeader + context + QuestionHeader,
                 query + AnswerCue(f));
  }

  /** Character `k` from the end of a string is character `k` from the end of any suffix. */
  lemma SuffixChar(p: string, s: string, k: nat)
    requires 0 < k <= |s|
    ensures HasSuffix(p, s) ==> p[|p| - k] == s[|s| - k]
  {
    if HasSuffix(p, s) {
      assert p[|p| - |s|..][|s| - k] == p[|p| - k];
    }
  }

  /** The prompt carries the code-block directive right after the instruction exactly for
      markdown answers; otherwise the context header follows the instruction directly. */
  lemma DirectiveIffMarkdown(instruction: string, query: string, context: string, f: AnswerFormat)
    ensures HasPrefix(Assemble(instruction, query, context, f), instruction + CodeDirective)
            <==> f == Markdown
    ensures f == PlainText ==>
            HasPrefix(Assemble(instruction, query, context, f), instruction + ContextHeader)
  {
    AssembleLayout(instruction, query, context, f);
    var p := Assemble(instruction, query, context, f);
    var m := ContextHeader + context + QuestionHeader;
    var n := |instruction|;
    if f == PlainText {
      assert p[n..n + |m|] == m;
      assert p[n] == m[0] == '\n';
      assert (instruction + CodeDirective)[n] == CodeDirective[0];
      assert p[..n] == instruction;
      assert p[n..n + |ContextHeader|] == m[..|ContextHeader|] == ContextHeader;
      assert p[..n + |ContextHeader|] == instruction + ContextHeader;
    }
  }

  /** The answer cue is the last part of every prompt. */
  lemma EndsWithAnswerCue(instruction: string, query: string, context: string, f: AnswerFormat)
    ensures HasSuffix(Assemble(instruction, query, context, f), AnswerCue(f))
  {
    AssembleLayout(instruction, query, context, f);
    var p := Assemble(instruction, query, context, f);
    var cue := AnswerCue(f);
    var t := query + cue;
    assert p[|p| - |cue|..] == t[|t| - |cue|..];
  }

  /** Any string ending in an answer cue ends in the markdown cue exactly when that is its cue,
      and likewise for the plain cue: the two cues never end the same string. */
  lemma CueDeterminesFormat(p: string, f: AnswerFormat)
    requires HasSuffix(p, AnswerCue(f))
    ensures HasSuffix(p, AnswerCue(Markdown)) <==> f == Markdown
    ensures HasSuffix(p, AnswerCue(PlainText)) <==> f == PlainText
  {
    var md := AnswerCue(Markdown);
    var plain := AnswerCue(PlainText);
    assert md[|md| - 2] == MarkdownCue[|MarkdownCue| - 1] == 'n';
    assert plain[|plain| - 2] == AnswerWord[|AnswerWord| - 1] == 'r';
    SuffixChar(p, AnswerCue(f), 2);
    SuffixChar(p, md, 2);
    SuffixChar(p, plain, 2);
  }

  /** The prompt ends with "\n\nAnswer in Markdown:" exactly for markdown answers, and with
      "\n\nAnswer:" exactly otherwise. */
  lemma AnswerCueIffMarkdown(instruction: string, query: string, context: string, f: AnswerFormat)
    ensures HasSuffix(Assemble(instruction, query, context, f), AnswerCue(Markdown))
            <==> f == Markdown
    ensures HasSuffix(Assemble(instruction, query, context, f), AnswerCue(PlainText))
            <==> f == PlainText
  {
    EndsWithAnswerCue(instruction, query, context, f);
    CueDeterminesFormat(Assemble(instruction, query, context, f), f);
  }

  /** Under one instruction, a prompt determines its format, context and query once the
      query's length is known: the segments cannot shift into each other. */
  lemma AssembleInjective(instruction: string,
    q1: string, c1: string, f1: AnswerFormat, q2: string, c2: string, f2: AnswerFormat)
    requires |q1| == |q2|
    requires Assemble(instruction, q1, c1, f1) == Assemble(instruction, q2, c2, f2)
    ensures f1 == f2 && q1 == q2 && c1 == c2
  {
    AssembleLayout(instruction, q1, c1, f1);
    AssembleLayout(instruction, q2, c2, f2);
    var p := Assemble(instruction, q1, c1, f1);
    AnswerCueIffMarkdown(instruction, q1, c1, f1);
    AnswerCueIffMarkdown(instruction, q2, c2, f2);
    var s1 := q1 + AnswerCue(f1);
    var s2 := q2 + AnswerCue(f1);
    assert s1 == p[|p| - |s1|..] == s2;
    assert q1 == s1[..|q1|] == q2;
    var m1 := ContextHeader + c1 + QuestionHeader;
    var m2 := ContextHeader + c2 + QuestionHeader;
    var o := |instruction| + |Directive(f1)|;
    assert m1 == p[o..o + |m1|] == m2;
    assert c1 == m1[|ContextHeader|..|ContextHeader| + |c1|] == c2;
  }
}
