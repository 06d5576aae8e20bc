/**
 * holiday_emojis.py: an ordered table of (fragment, emoji) pairs, the
 * first-match lookup of an emoji for a holiday name, the decoration of a
 * name with its emoji, and the loading of the table from its JSON file.
 */
module Emojis {
  import opened Wrappers
  import opened Text

  datatype Fragment = Fragment(frag: string, emoji: string)

  /** The generic emoji used when no fragment matches. */
  const PartyEmoji := "\U{1F389}"

  const MilitaryHelmet := "\U{1FA96}"
  const Tulip := "\U{1F337}"
  const CupidHeart := "\U{1F498}"
  const BirthdayCake := "\U{1F382}"

  /** `_DEFAULT_FRAGMENTS`, in its order. */
  const DefaultFragments: seq<Fragment> := [
    Fragment("23 февр", MilitaryHelmet),
    Fragment("23 февра", MilitaryHelmet),
    Fragment("отечест", MilitaryHelmet),
    Fragment("новый год", PartyEmoji),
    Fragment("рождество", "\U{1F384}"),
    Fragment("пасха", "\U{271D}\U{FE0F}"),
    Fragment("победа", "\U{1F396}\U{FE0F}"),
    Fragment("8 март", Tulip),
    Fragment("женский", Tulip),
    Fragment("валентин", CupidHeart),
    Fragment("влюбл", CupidHeart),
    Fragment("маслениц", "\U{1F95E}"),
    Fragment("труд", "\U{1F6E0}\U{FE0F}"),
    Fragment("мать", "\U{1F931}"),
    Fragment("отец", "\U{1F468}\U{200D}\U{1F467}"),
    Fragment("день рождения", BirthdayCake),
    Fragment("юбилей", BirthdayCake),
    Fragment("город", "\U{1F3D9}\U{FE0F}"),
    Fragment("флаг", "\U{1F3F3}\U{FE0F}"),
    Fragment("язык", "\U{1F5E3}\U{FE0F}"),
    Fragment("экскурс", "\U{1F9ED}"),
    Fragment("фельдшер", "\U{1FA7A}"),
    Fragment("полярн", "\U{1F43B}\U{200D}\U{2744}\U{FE0F}"),
    Fragment("оптимист", "\U{1F604}")
  ]

  /**
   * The index of the first entry whose fragment occurs in low, if any:
   * every earlier fragment is absent, and None means that none occurs.
   */
  function MatchIndex(frags: seq<Fragment>, low: string): (r: Option<nat>)
    ensures r.Some? ==> r.value < |frags| && Contains(low, frags[r.value].frag)
    ensures r.Some? ==> forall j :: 0 <= j < r.value ==> !Contains(low, frags[j].frag)
    ensures r.None? <==> forall j :: 0 <= j < |frags| ==> !Contains(low, frags[j].frag)
    decreases |frags|
  {
    if frags == [] then None
    else if Contains(low, frags[0].frag) then Some(0)
    else
      match MatchIndex(frags[1..], low)
      case None => None
      case Some(k) => Some(k + 1)
  }

  /** `emoji_for_holiday` against a fragment table: nothing for an empty name, else the first match. */
  function EmojiFor(frags: seq<Fragment>, name: string): Option<string> {
    if name == [] then None
    else
      match MatchIndex(frags, Lower(name))
      case None => None
      case Some(i) => Some(frags[i].emoji)
  }

  /** `emoji_for_holiday`: the loop over the table that returns at the first fragment found. */
  method EmojiForHoliday(frags: seq<Fragment>, name: string) returns (r: Option<string>)
    ensures r == EmojiFor(frags, name)
    ensures r.Some? <==> name != [] && exists i :: 0 <= i < |frags| && Contains(Lower(name), frags[i].frag)
  {
    if name == [] {
      return None;
    }
    var low := Lower(name);
    var i := 0;
    while i < |frags|
      invariant 0 <= i <= |frags|
      invariant forall j :: 0 <= j < i ==> !Contains(low, frags[j].frag)
    {
      if Contains(low, frags[i].frag) {
        assert MatchIndex(frags, low) == Some(i) by {
          MatchIndexIsFirst(frags, low, i);
        }
        return Some(frags[i].emoji);
      }
      i := i + 1;
    }
    return None;
  }

  /** Any index whose fragment occurs, with no earlier one occurring, is the match. */
  lemma MatchIndexIsFirst(frags: seq<Fragment>, low: string, i: nat)
    requires i < |frags| && Contains(low, frags[i].frag)
    requires forall j :: 0 <= j < i ==> !Contains(low, frags[j].frag)
    ensures MatchIndex(frags, low) == Some(i)
  {
    assert MatchIndex(frags, low).Some?;
  }

  /** An earlier entry whose fragment occurs in the name wins over every later one. */
  lemma FirstMatchWins(frags: seq<Fragment>, name: string, i: nat, k: nat)
    requires name != [] && i < k < |frags|
    requires Contains(Lower(name), frags[i].frag)
    ensures MatchIndex(frags, Lower(name)).Some? && MatchIndex(frags, Lower(name)).value != k
  {
  }

  /** str.lower() is idempotent on the characters it maps. */
  lemma LowerIdempotent(s: string)
    ensures Lower(Lower(s)) == Lower(s)
  {
    assert forall i :: 0 <= i < |s| ==> LowerChar(LowerChar(s[i])) == LowerChar(s[i]);
  }

  /** The lookup ignores case: a name and its lower-cased form get the same emoji. */
  lemma EmojiForIgnoresCase(frags: seq<Fragment>, name: string)
    ensures EmojiFor(frags, Lower(name)) == EmojiFor(frags, name)
  {
    LowerIdempotent(name);
  }

  /**
   * Entry 1 of the default table ("23 февра") can never be the match:
   * any name containing it also contains entry 0 ("23 февр").
   */
  lemma DefaultSecondEntryShadowed(name: string)
    ensures MatchIndex(DefaultFragments, Lower(name)) != Some(1)
  {
    var low := Lower(name);
    var f0, f1 := DefaultFragments[0].frag, DefaultFragments[1].frag;
    if Contains(low, f1) {
      assert f1[..|f0|] == f0;
      ContainsAt(f1, f0, 0);
      ContainsTransitive(low, f1, f0);
    }
  }

  /** `emoji_for_holiday(name) or "🎉"`: a missing or empty emoji becomes the party emoji. */
  function DisplayEmoji(frags: seq<Fragment>, name: string): (em: string)
    ensures em != []
    ensures em == PartyEmoji || EmojiFor(frags, name) == Some(em)
    ensures EmojiFor(frags, name).Some? && EmojiFor(frags, name).value != [] ==> em == EmojiFor(frags, name).value
  {
    match EmojiFor(frags, name)
    case Some(e) => if e != [] then e else PartyEmoji
    case None => PartyEmoji
  }

  /** `decorate_holiday`: the display emoji, one space, then the name unchanged. */
  function DecorateHoliday(frags: seq<Fragment>, name: string): (r: string)
    ensures |r| > |name| && r[|r| - |name|..] == name && r[|r| - |name| - 1] == ' '
    ensures r[..|r| - |name| - 1] == DisplayEmoji(frags, name)
  {
    var r := DisplayEmoji(frags, name) + " " + name;
    assert r[|r| - |name|..] == name;
    r
  }

  /** A name without any table fragment is decorated with the party emoji. */
  lemma DecorateUnmatched(frags: seq<Fragment>, name: string)
    requires forall j :: 0 <= j < |frags| ==> !Contains(Lower(name), frags[j].frag)
    ensures DecorateHoliday(frags, name) == PartyEmoji + " " + name
  {
  }

  /**
   * One element of the JSON array, with its entries already rendered by
   * str(): a nested array, an object with its fields, or anything else.
   */
  datatype Item =
    | ListItem(elems: seq<string>)
    | DictItem(fields: map<string, string>)
    | OtherItem

  /** What reading the JSON file yields. */
  datatype FragmentFile =
    | Missing
    | Unparsable
    | NotAList
    | ItemList(items: seq<Item>)

  /** The pair an item contributes, if it has the shape the loader accepts. */
  function ItemFragment(item: Item): Option<Fragment> {
    match item
    case ListItem(elems) => if |elems| >= 2 then Some(Fragment(elems[0], elems[1])) else None
    case DictItem(fields) =>
      if "frag" in fields && "emoji" in fields then Some(Fragment(fields["frag"], fields["emoji"])) else None
    case OtherItem => None
  }

  /** The pairs of the well-formed items, in file order. */
  function NormalizeItems(items: seq<Item>): seq<Fragment>
    decreases |items|
  {
    if items == [] then []
    else
      var init := NormalizeItems(items[..|items| - 1]);
      match ItemFragment(items[|items| - 1])
      case Some(f) => init + [f]
      case None => init
  }

  lemma {:induction false} NormalizeAppend(a: seq<Item>, b: seq<Item>)
    ensures NormalizeItems(a + b) == NormalizeItems(a) + NormalizeItems(b)
    decreases |b|
  {
    if b == [] {
      assert a + b == a;
    } else {
      var b' := b[..|b| - 1];
      assert (a + b)[..|a + b| - 1] == a + b';
      assert (a + b)[|a + b| - 1] == b[|b| - 1];
      NormalizeAppend(a, b');
    }
  }

  /** Every accepted pair comes from a well-formed item, and every well-formed item is accepted. */
  lemma {:induction false} NormalizeItemsSound(items: seq<Item>)
    ensures forall f :: f in NormalizeItems(items) <==> exists i :: 0 <= i < |items| && ItemFragment(items[i]) == Some(f)
    decreases |items|
  {
    if items != [] {
      var init := items[..|items| - 1];
      NormalizeItemsSound(init);
      forall f
        ensures (exists i :: 0 <= i < |items| && ItemFragment(items[i]) == Some(f))
             <==> ((exists i :: 0 <= i < |init| && ItemFragment(init[i]) == Some(f))
                   || ItemFragment(items[|items| - 1]) == Some(f))
      {
        if exists i :: 0 <= i < |items| && ItemFragment(items[i]) == Some(f) {
          var i :| 0 <= i < |items| && ItemFragment(items[i]) == Some(f);
          if i < |init| {
            assert init[i] == items[i];
          }
        }
        if exists i :: 0 <= i < |init| && ItemFragment(init[i]) == Some(f) {
          var i :| 0 <= i < |init| && ItemFragment(init[i]) == Some(f);
          assert items[i] == init[i];
        }
      }
    }
  }

  /** The file `_write_default_json` writes: one two-element array per pair. */
  function EncodeFragments(frags: seq<Fragment>): (items: seq<Item>)
    ensures |items| == |frags|
    ensures forall i :: 0 <= i < |frags| ==> items[i] == ListItem([frags[i].frag, frags[i].emoji])
  {
    seq(|frags|, i requires 0 <= i < |frags| => ListItem([frags[i].frag, frags[i].emoji]))
  }

  /** Reading back the file written from a table gives that table. */
  lemma {:induction false} NormalizeEncode(frags: seq<Fragment>)
    ensures NormalizeItems(EncodeFragments(frags)) == frags
    decreases |frags|
  {
    if frags != [] {
      var init := frags[..|frags| - 1];
      assert EncodeFragments(frags)[..|frags| - 1] == EncodeFragments(init);
      NormalizeEncode(init);
      assert frags == init + [frags[|frags| - 1]];
    }
  }

  /**
   * `_load_fragments`: the well-formed pairs of the file when there is at
   * least one; the default table when the file is missing, unreadable, not
   * an array or has no well-formed item. writeDefault says that the default
   * file is to be written, which happens exactly when the file is missing.
   */
  method LoadFragments(file: FragmentFile) returns (fragments: seq<Fragment>, writeDefault: bool)
    ensures writeDefault <==> file.Missing?
    ensures file.ItemList? && NormalizeItems(file.items) != [] ==> fragments == NormalizeItems(file.items)
    ensures !(file.ItemList? && NormalizeItems(file.items) != []) ==> fragments == DefaultFragments
    ensures fragments != []
  {
    writeDefault := false;
    match file {
      case Missing =>
        writeDefault := true;
        return DefaultFragments, writeDefault;
      case Unparsable =>
        return DefaultFragments, writeDefault;
      case NotAList =>
        return DefaultFragments, writeDefault;
      case ItemList(items) =>
        fragments := [];
        var i := 0;
        while i < |items|
          invariant 0 <= i <= |items|
          invariant fragments == NormalizeItems(items[..i])
        {
          assert items[..i + 1][..i] == items[..i];
          match ItemFragment(items[i]) {
            case Some(f) => fragments := fragments + [f];
            case None =>
          }
          i := i + 1;
        }
        assert items[..i] == items;
        if fragments == [] {
          fragments := DefaultFragments;
        }
    }
  }

  /** Loading the default file, once written, yields the default table again. */
  method ReloadDefault() returns (fragments: seq<Fragment>)
    ensures fragments == DefaultFragments
  {
    NormalizeEncode(DefaultFragments);
    var wrote;
    fragments, wrote := LoadFragments(ItemList(EncodeFragments(DefaultFragments)));
  }
}
