/** The reply cleanup shared by the IaC gate scanner and the code-review agent:
    `text.replace("```json", "").replace("```", "").strip()`. Both markers are
    removed wherever they occur in the text, not only at its ends. */
module Fences {
  import opened PyText

  const Fence: string := "```"
  const JsonFence: string := "```json"

  /** Deleting every occurrence of the fence in one left-to-right pass. */
  function DeleteFences(s: string): string
  {
    ReplaceAll(s, Fence, "")
  }

  /** The cleanup chain. Its result contains neither marker and has no
      whitespace at either end. */
  function CleanReply(s: string): (r: string)
    ensures !Contains(r, Fence) && !Contains(r, JsonFence)
    ensures IsTrimmed(r)
  {
    var t := DeleteFences(ReplaceAll(s, JsonFence, ""));
    DeleteFencesLeavesNone(ReplaceAll(s, JsonFence, ""));
    StripKeepsNoFence(t);
    Strip(t)
  }

  /** Stripping whitespace cannot create a marker. */
  lemma StripKeepsNoFence(t: string)
    requires !Contains(t, Fence)
    ensures !Contains(Strip(t), Fence) && !Contains(Strip(t), JsonFence)
  {
    InfixKeepsNoFence(t, Lead(t), Strip(t));
    JsonFenceHasFence(Strip(t));
  }

  /** A piece of a fence-free text is fence-free. */
  lemma InfixKeepsNoFence(t: string, n: nat, r: string)
    requires n + |r| <= |t| && r == t[n..n + |r|]
    requires !Contains(t, Fence)
    ensures !Contains(r, Fence)
  {
    forall i | OccursAt(r, Fence, i) ensures OccursAt(t, Fence, n + i) {
      var here, there := r[i..i + |Fence|], t[n + i..n + i + |Fence|];
      assert forall j :: 0 <= j < |here| ==> here[j] == there[j];
    }
  }

  /** The JSON marker starts with the plain fence. */
  lemma JsonFenceHasFence(s: string)
    ensures Contains(s, JsonFence) ==> Contains(s, Fence)
  {
    if Contains(s, JsonFence) {
      ContainsPrefix(s, JsonFence, 3);
      assert JsonFence[..3] == Fence;
    }
  }

  /** A text not starting with a backtick keeps its first character. */
  lemma DeleteFencesHead(s: string)
    requires s != [] && s[0] != '`'
    ensures DeleteFences(s) != [] && DeleteFences(s)[0] == s[0]
  {
    if |s| >= 3 {
      assert s[..3][0] == s[0];
    }
  }

  /** Putting a character in front of a text creates a new fence only when it
      is a backtick and the text starts with two backticks. */
  lemma ConsKeepsNoFence(c: char, t: string)
    requires !Contains(t, Fence)
    requires |t| < 2 || !(c == '`' && t[0] == '`' && t[1] == '`')
    ensures !Contains([c] + t, Fence)
  {
    assert !OccursAt([c] + t, Fence, 0) by {
      if |t| >= 2 {
        assert ([c] + t)[..3] == [c, t[0], t[1]];
      }
    }
    forall i | 0 < i && OccursAt([c] + t, Fence, i) ensures OccursAt(t, Fence, i - 1) {
      assert ([c] + t)[i..i + 3] == t[i - 1..i + 2];
    }
  }

  /** Deleting the fences in one pass cannot join backticks into a new fence:
      each maximal run of k backticks is left with k mod 3 of them. */
  lemma {:induction false} DeleteFencesLeavesNone(s: string)
    ensures !Contains(DeleteFences(s), Fence)
    decreases |s|
  {
    var d := DeleteFences(s);
    if |s| < 3 {
      assert d == s;
    } else if s[..3] == Fence {
      assert d == DeleteFences(s[3..]);
      DeleteFencesLeavesNone(s[3..]);
    } else {
      var tail := DeleteFences(s[1..]);
      assert d == [s[0]] + tail;
      DeleteFencesLeavesNone(s[1..]);
      if s[0] == '`' {
        if s[1] != '`' {
          DeleteFencesHead(s[1..]);
        } else {
          assert s[2] != '`' by { assert s[..3] == [s[0], s[1], s[2]]; }
          var u := s[1..];
          if |u| >= 3 {
            assert u[..3] != Fence by { assert u[..3][1] == s[2]; }
            assert tail == [u[0]] + DeleteFences(u[1..]);
            DeleteFencesHead(u[1..]);
          } else {
            assert tail == u;
          }
        }
      }
      ConsKeepsNoFence(s[0], tail);
    }
  }

  /** A reply that is already free of fences and trimmed is left unchanged. */
  lemma CleanKeepsPlainReply(s: string)
    requires !Contains(s, Fence) && IsTrimmed(s)
    ensures CleanReply(s) == s
  {
    JsonFenceHasFence(s);
    ReplaceAbsent(s, JsonFence, "");
    ReplaceAbsent(s, Fence, "");
    StripTrimmed(s);
  }

  /** Cleaning a cleaned reply changes nothing. */
  lemma CleanIdempotent(s: string)
    ensures CleanReply(CleanReply(s)) == CleanReply(s)
  {
    CleanKeepsPlainReply(CleanReply(s));
  }

  /** Deleting the fences of a fence-free text followed by one closing fence
      gives back the text: the closing fence is the only occurrence, even when
      the text ends with one or two backticks. */
  lemma {:induction false} DeleteClosingFence(body: string)
    requires !Contains(body, Fence)
    ensures DeleteFences(body + Fence) == body
    decreases |body|
  {
    var s := body + Fence;
    if |body| < 3 && s[..3] == Fence {
      assert forall k :: 0 <= k < |body| ==> body[k] == s[..3][k];
      assert s[3..] == body;
      assert DeleteFences(s) == "" + DeleteFences(body);
    } else {
      assert s[..3] != Fence by {
        if |body| >= 3 {
          assert !OccursAt(body, Fence, 0);
          assert s[..3] == body[..3];
        }
      }
      assert body != [];
      forall i | OccursAt(body[1..], Fence, i) ensures OccursAt(body, Fence, i + 1) {
        assert body[1..][i..i + 3] == body[i + 1..i + 4];
      }
      assert s[1..] == body[1..] + Fence;
      DeleteClosingFence(body[1..]);
    }
  }

  /** The JSON marker cannot start inside a fence-free text followed by a
      closing fence: there are fewer than seven characters after any fence. */
  lemma NoJsonFenceBeforeClosing(body: string)
    requires !Contains(body, Fence)
    ensures !Contains(body + Fence, JsonFence)
  {
    forall p | OccursAt(body + Fence, JsonFence, p) ensures OccursAt(body, Fence, p) {
      assert (body + Fence)[p..p + 3] == (body + Fence)[p..p + 7][..3];
      assert body[p..p + 3] == (body + Fence)[p..p + 3];
    }
  }

  /** A reply wrapped in a JSON code block, the usual shape of a model's
      answer, is cleaned down to the stripped contents of the block. */
  lemma CleanUnwrapsCodeBlock(body: string)
    requires !Contains(body, Fence)
    ensures CleanReply(JsonFence + body + Fence) == Strip(body)
  {
    var s := JsonFence + body + Fence;
    assert s[..7] == JsonFence;
    assert s[7..] == body + Fence;
    NoJsonFenceBeforeClosing(body);
    ReplaceAbsent(body + Fence, JsonFence, "");
    assert ReplaceAll(s, JsonFence, "") == body + Fence;
    DeleteClosingFence(body);
  }
}
