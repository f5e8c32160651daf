/**
 * The theme hook (src/hooks/useTheme.ts): a dark-mode flag read once from
 * storage, written back as `dark` or `light` after every change, mirrored in
 * the document's `dark` class, and negated by `toggle`.
 */
module Theme {
  import opened Wrappers
  import opened Text

  const DarkValue: string := "dark"
  const LightValue: string := "light"

  /**
   * The initial flag from the saved string: dark exactly when the saved value
   * is `dark`. A missing or empty value, `light`, and any other spelling
   * (such as `Dark`) all mean light mode.
   */
  function ParseSaved(saved: Option<string>): (isDark: bool)
    ensures isDark <==> saved == Some(DarkValue)
  {
    if Truthy(saved) then saved.value == DarkValue else false
  }

  /** The string persisted for a flag. */
  function Encode(isDark: bool): (s: string)
    ensures s == DarkValue || s == LightValue
    ensures s == DarkValue <==> isDark
  {
    if isDark then DarkValue else LightValue
  }

  /** Reading back what was persisted gives the same flag. */
  lemma ParseEncode(isDark: bool)
    ensures ParseSaved(Some(Encode(isDark))) == isDark
  {
  }

  /** Each of the two persisted values is re-encoded as itself. */
  lemma EncodeParse(saved: string)
    requires saved == DarkValue || saved == LightValue
    ensures Encode(ParseSaved(Some(saved))) == saved
  {
  }

  /** Missing, empty and differently-cased values fall back to light mode. */
  lemma DefaultsToLight()
    ensures !ParseSaved(None)
    ensures !ParseSaved(Some(""))
    ensures !ParseSaved(Some("Dark"))
    ensures !ParseSaved(Some(LightValue))
  {
  }

  /**
   * The hook's state. `stored` is the `theme` storage slot and `darkClass`
   * whether the document root carries the `dark` class; the effect keeps both
   * in step with `isDark` after every change.
   */
  class ThemeState {
    var isDark: bool
    var stored: Option<string>
    var darkClass: bool

    /** Storage and the document agree with the flag. */
    predicate Synced()
      reads this
    {
      stored == Some(Encode(isDark)) && darkClass == isDark
    }

    /** Mount: parse the saved value, then run the effect once. */
    constructor (saved: Option<string>)
      ensures isDark == ParseSaved(saved)
      ensures Synced()
    {
      var initial := ParseSaved(saved);
      isDark := initial;
      darkClass := initial;
      stored := Some(Encode(initial));
    }

    /** The effect that runs after `isDark` changes. */
    method Sync()
      modifies this
      ensures isDark == old(isDark)
      ensures Synced()
    {
      darkClass := isDark;
      stored := Some(Encode(isDark));
    }

    /** `toggle`: the flag is negated, and the effect persists and applies it. */
    method Toggle()
      modifies this
      ensures isDark == !old(isDark)
      ensures Synced()
    {
      isDark := !isDark;
      Sync();
    }

    /** Two toggles, one after the other, restore the original flag and storage. */
    method ToggleTwice()
      modifies this
      ensures isDark == old(isDark)
      ensures Synced()
      ensures ParseSaved(stored) == old(isDark)
    {
      Toggle();
      Toggle();
    }
  }
}
