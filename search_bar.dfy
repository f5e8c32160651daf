/**
 * The search form (src/components/SearchBar.tsx): a text field whose value is
 * overwritten on every change, and a submit handler that passes the trimmed
 * query on only when something is left after trimming.
 */
module SearchBar {
  import opened Wrappers
  import opened Text

  /**
   * The submit guard: the query to search for, or `None` when the field holds
   * only whitespace. A query that is searched is the trimmed field text, is
   * non-empty, and has no whitespace at either end.
   */
  function SubmittedQuery(query: string): (r: Option<string>)
    ensures r.None? <==> AllWhitespace(query)
    ensures r.Some? ==> r.value == Trim(query) && r.value != ""
    ensures r.Some? ==> !IsWhitespace(r.value[0]) && !IsWhitespace(r.value[|r.value| - 1])
  {
    var t := Trim(query);
    if t != "" then Some(t) else None
  }

  /** Leading spaces and a trailing line break are dropped; the text between them is kept as it is. */
  lemma SubmitTrimsSurroundingWhitespace(inner: string)
    requires inner != "" && !IsWhitespace(inner[0]) && !IsWhitespace(inner[|inner| - 1])
    ensures SubmittedQuery("  " + inner + "\n") == Some(inner)
  {
    assert AllWhitespace("  ") && AllWhitespace("\n");
    TrimExactly("  ", inner, "\n");
  }

  /** A field holding only spaces and tabs submits nothing. */
  lemma BlankQueryNotSubmitted()
    ensures SubmittedQuery(" \t ") == None
  {
  }

  /** Submitting the text a previous submit searched for searches for the same text again. */
  lemma SubmitIdempotent(query: string)
    requires SubmittedQuery(query).Some?
    ensures SubmittedQuery(SubmittedQuery(query).value) == SubmittedQuery(query)
  {
  }

  /** The search form's one state cell, the text in the field. */
  class Form {
    var query: string

    constructor ()
      ensures query == ""
    {
      query := "";
    }

    /** `onChange`: the field text is replaced by the new value. */
    method OnChange(value: string)
      modifies this
      ensures query == value
    {
      query := value;
    }

    /**
     * `handleSubmit`: at most one search is requested, with the trimmed text,
     * and only when it is non-empty. The field text is left as it was.
     */
    method HandleSubmit() returns (searched: Option<string>)
      ensures searched == SubmittedQuery(query)
      ensures searched.None? <==> AllWhitespace(query)
    {
      searched := SubmittedQuery(query);
    }
  }
}
