/**
 * Submitted form data: each field is absent or the text the browser sent.
 */
module Forms {
  import opened Wrappers

  /** A form field: absent, or the submitted text. */
  type Field = Option<string>

  /** JavaScript truthiness of a form field: present and non-empty. */
  predicate Given(f: Field) {
    f.Some? && f.value != ""
  }
}
