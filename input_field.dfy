/**
 * The numeric input box's change handler: it keeps only digits, dots and ASCII minus
 * signs, reads what is left as a number and pulls it into the field's bounds before
 * handing it on.
 */
module InputField {
  import opened Wrappers
  import opened Money

  /**
   * `handleChange` on the text typed into the box.  `None` means the handler returns
   * without emitting a value; `Some(v)` means `onChange(v)` is called.
   */
  method HandleChange(text: string, min: Option<real>, max: Option<real>) returns (emitted: Option<real>)
    // An empty box, or one holding only a minus sign, emits 0 without looking at the bounds.
    ensures Filter(text) == "" || Filter(text) == "-" ==> emitted == Some(0.0)
    // Text that does not start like a number emits nothing.
    ensures Filter(text) != "" && Filter(text) != "-" && ParseFloat(Filter(text)).None? ==> emitted.None?
    // Otherwise a value is emitted: a value above max becomes max, since max is checked
    // last; a value below min and not above max becomes min; any other value is kept.
    ensures ParseFloat(Filter(text)).Some? ==> emitted.Some?
    ensures ParseFloat(Filter(text)).Some? && Filter(text) != "-" ==>
      var num := ParseFloat(Filter(text)).value;
      && (max.Some? && num > max.value ==> emitted.value == max.value)
      && (min.Some? && num < min.value && (max.None? || num <= max.value) ==> emitted.value == min.value)
      && (min.Some? && (max.None? || min.value <= max.value) ==> emitted.value >= min.value)
      && (max.Some? && (min.None? || min.value <= max.value) ==> emitted.value <= max.value)
      && ((min.None? || min.value <= num) && (max.None? || num <= max.value) ==> emitted.value == num)
  {
    var raw := Filter(text);
    var num := ParseFloat(raw);
    if raw == "" || raw == "-" {
      return Some(0.0);
    }
    if num.None? {
      return None;
    }
    var bounded := num.value;
    if min.Some? && num.value < min.value {
      bounded := min.value;
    }
    if max.Some? && num.value > max.value {
      bounded := max.value;
    }
    return Some(bounded);
  }

  /**
   * The empty text and "-" are not numbers, which is why they need the early return;
   * "." and "--" are not numbers either, so they emit nothing.
   */
  lemma NotNumbers()
    ensures ParseFloat("").None? && ParseFloat("-").None?
    ensures ParseFloat(".").None? && ParseFloat("--").None?
  {
  }
}
