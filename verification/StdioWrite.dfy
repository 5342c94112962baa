/** Durable appends of one journal line through a writer that may write less than it is given
    (src/mcp-stdio-evidence.ts). */
module StdioWrite {
  import opened Common
  import opened StdioSession

  /** What the i-th call of the writer returns. */
  type Writer = nat -> int

  /** From its given call on, the writer accepts all remaining bytes in positive portions. */
  predicate Completes(writer: Writer, call: nat, remaining: nat)
    decreases remaining
  {
    remaining == 0 || (0 < writer(call) <= remaining && Completes(writer, call + 1, remaining - writer(call)))
  }

  /** writeMcpStdioBufferFully: what reached the file, and whether it returned rather than threw. */
  method WriteBufferFully(buffer: Bytes, writer: Writer) returns (written: Bytes, returned: bool)
    requires |buffer| <= MAX_SAFE_INTEGER
    ensures written <= buffer
    ensures returned <==> Completes(writer, 0, |buffer|)
    ensures returned <==> written == buffer
  {
    var offset, call := 0, 0;
    while offset < |buffer|
      invariant 0 <= offset <= |buffer| && 0 <= call
      invariant Completes(writer, 0, |buffer|) <==> Completes(writer, call, |buffer| - offset)
    {
      var portion := writer(call);
      if !SafeInteger(portion) || portion <= 0 || portion > |buffer| - offset {
        return buffer[..offset], false;
      }
      offset := offset + portion;
      call := call + 1;
    }
    return buffer[..offset], true;
  }

  /** An append that did not return leaves the complete lines of the journal as they were: what it wrote
      is at most an unterminated last line, which recovery refuses as torn. */
  lemma PartialAppendIsTorn(journal: Bytes, text: Bytes, written: Bytes)
    requires Unfinished(journal) == [] && NEWLINE !in text
    requires written <= text + [NEWLINE] && written != text + [NEWLINE]
    ensures CompleteLines(journal + written) == CompleteLines(journal)
    ensures Unfinished(journal + written) == written
  {
    assert NEWLINE !in written by {
      forall i | 0 <= i < |written| ensures written[i] != NEWLINE {
        assert written[i] == (text + [NEWLINE])[i];
      }
    }
    LinesOfMore(journal, written);
    assert [] + written == written;
    assert Newline(written).None?;
    assert CompleteLines(written) == [];
  }

  /** An append that returned adds exactly its line. */
  lemma FullAppendAddsLine(journal: Bytes, text: Bytes)
    requires Unfinished(journal) == [] && NEWLINE !in text
    ensures CompleteLines(journal + (text + [NEWLINE])) == CompleteLines(journal) + [text]
    ensures Unfinished(journal + (text + [NEWLINE])) == []
  {
    var line := text + [NEWLINE];
    LinesOfMore(journal, line);
    assert [] + line == line;
    FirstNewline(text);
    assert line[..|text|] == text && line[|text| + 1..] == [];
    assert CompleteLines([]) == [] && Unfinished([]) == [];
  }

  lemma {:induction false} FirstNewline(text: Bytes)
    requires NEWLINE !in text
    ensures Newline(text + [NEWLINE]) == Some(|text|)
  {
    if text != [] {
      assert (text + [NEWLINE])[1..] == text[1..] + [NEWLINE];
      FirstNewline(text[1..]);
    } else {
      assert text + [NEWLINE] == [NEWLINE];
    }
  }
}
