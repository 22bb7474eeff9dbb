/** The options record and the rule that fills a missing mode and owner from
    the target's current attributes. Every test is JavaScript truthiness:
    `mode: 0` and `chown: false` count as missing. */
module Attributes {
  import opened FileSystem

  /** `options.mode`: absent, or a number (0 is falsy). */
  datatype Mode = Unset | Bits(bits: nat)

  /** `options.chown` is `None` for undefined, null or false (all falsy) and
      `Some(owner)` for an `{uid, gid}` object (always truthy). `encoding` is
      the empty string when unset (both are falsy). */
  datatype Options = Options(mode: Mode, chown: Option<Owner>, encoding: string)

  /** `if (!options) options = {}` */
  const NoOptions := Options(Unset, None, "")

  function OrEmpty(options: Option<Options>): (o: Options)
    ensures options.Some? ==> o == options.value
    ensures options.None? ==> o.mode == Unset && o.chown == None && o.encoding == ""
  {
    if options.None? then NoOptions else options.value
  }

  predicate Truthy(m: Mode)
  {
    m.Bits? && m.bits != 0
  }

  /** `!options.mode || !options.chown`: the target is stat'ed exactly when this holds. */
  predicate NeedsStat(o: Options)
  {
    !Truthy(o.mode) || o.chown.None?
  }

  /** The mode argument of `fs.open(tmpfile, 'w', options.mode)`: an absent mode
      means Node's default 0o666. */
  function OpenMode(m: Mode): (r: nat)
    ensures m.Unset? ==> r == 438
    ensures m.Bits? ==> r == m.bits
  {
    match m
    case Unset => 438 // 0o666
    case Bits(b) => b
  }

  /** `options.encoding || 'utf8'` */
  function EffectiveEncoding(encoding: string): (e: string)
    ensures encoding == "" ==> e == "utf8"
    ensures encoding != "" ==> e == encoding
  {
    if encoding == "" then "utf8" else encoding
  }

  /** The options in force after attribute resolution, given what stat of the
      target returned (`None` when it failed; ignored when no stat is made). */
  function Resolve(o: Options, stat: Option<FileRec>, hasGetuid: bool): (r: Options)
    // no stat, or a failed stat: the caller's options as given
    ensures !NeedsStat(o) || stat.None? ==> r == o
    // a value the caller supplied is never overridden
    ensures Truthy(o.mode) ==> r.mode == o.mode
    ensures o.chown.Some? ==> r.chown == o.chown
    // a falsy mode is filled from the target's mode
    ensures stat.Some? && !Truthy(o.mode) ==> r.mode == Bits(stat.value.mode)
    // a falsy chown is filled from the target's owner iff process.getuid exists
    ensures stat.Some? && o.chown.None? ==>
      r.chown == (if hasGetuid then Some(OwnerOf(stat.value)) else None)
    // only mode and chown are ever filled in
    ensures r.encoding == o.encoding
  {
    if !NeedsStat(o) then o
    else match stat
      case None => o
      case Some(s) =>
        var copy := o;
        var withMode := if !Truthy(copy.mode) then copy.(mode := Bits(s.mode)) else copy;
        if withMode.chown.None? && hasGetuid then withMode.(chown := Some(OwnerOf(s))) else withMode
  }
}
