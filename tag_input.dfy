/** The tag editor of the front end (MODXX/src/components/TagInput.jsx): Enter
    adds the trimmed input as a new tag while there is room and it is not a
    duplicate, Backspace on an empty input removes the last tag, and a tag can
    be removed by its position. */
module TagInput {
  import opened Common

  /** The keys the handler reacts to; every other key is `OtherKey`. */
  datatype Key = Enter | Backspace | OtherKey

  predicate Distinct(tags: seq<string>) {
    forall i, j :: 0 <= i < j < |tags| ==> tags[i] != tags[j]
  }

  /** The tags after a key press (handleKeyDown). */
  function TagsAfterKey(tags: seq<string>, input: string, maxTags: int, key: Key): (r: seq<string>)
    ensures r == tags || r == tags + [JsTrim(input)] || (tags != [] && r == tags[..|tags| - 1])
    ensures r == tags + [JsTrim(input)] ==> key == Enter && JsTrim(input) != ""
  {
    var t := JsTrim(input);
    if key == Enter && t != "" then
      if |tags| >= maxTags || t in tags then tags else tags + [t]
    else if key == Backspace && input == "" && |tags| > 0 then tags[..|tags| - 1]
    else tags
  }

  /** The text box after a key press: cleared only when a tag was added. */
  function InputAfterKey(tags: seq<string>, input: string, maxTags: int, key: Key): (r: string)
    ensures r == "" || r == input
    ensures r != input ==> TagsAfterKey(tags, input, maxTags, key) == tags + [JsTrim(input)]
  {
    var t := JsTrim(input);
    if key == Enter && t != "" && |tags| < maxTags && t !in tags then "" else input
  }

  /** removeTag: every tag except the one at `index`, in order. */
  function WithoutIndex(tags: seq<string>, index: int): (r: seq<string>)
    ensures 0 <= index < |tags| ==> |r| == |tags| - 1
    ensures 0 <= index < |tags| ==> forall i :: 0 <= i < |r| ==> r[i] == tags[if i < index then i else i + 1]
    ensures !(0 <= index < |tags|) ==> r == tags
  {
    if 0 <= index < |tags| then tags[..index] + tags[index + 1..] else tags
  }

  /** Enter on a full list, or with a value that is already a tag, changes
      neither the tags nor the input. */
  lemma EnterRejected(tags: seq<string>, input: string, maxTags: int)
    requires JsTrim(input) != ""
    requires |tags| >= maxTags || JsTrim(input) in tags
    ensures TagsAfterKey(tags, input, maxTags, Enter) == tags
    ensures InputAfterKey(tags, input, maxTags, Enter) == input
  {
  }

  /** Otherwise Enter appends the trimmed value, which is free of surrounding
      white space, and clears the input. */
  lemma EnterAppends(tags: seq<string>, input: string, maxTags: int)
    requires JsTrim(input) != "" && |tags| < maxTags && JsTrim(input) !in tags
    ensures var t := TagsAfterKey(tags, input, maxTags, Enter);
      t == tags + [JsTrim(input)] && !IsJsSpace(t[|t| - 1][0])
    ensures InputAfterKey(tags, input, maxTags, Enter) == ""
  {
    TrimEnds(input, IsJsSpace);
  }

  /** Backspace on an empty input removes exactly the last tag. */
  lemma BackspaceRemovesLast(tags: seq<string>, maxTags: int)
    requires |tags| > 0
    ensures var t := TagsAfterKey(tags, "", maxTags, Backspace);
      t + [tags[|tags| - 1]] == tags
  {
  }

  /** Key handling keeps a distinct list of at most `maxTags` tags distinct and
      within the bound. */
  lemma KeyKeepsInvariant(tags: seq<string>, input: string, maxTags: int, key: Key)
    requires Distinct(tags) && |tags| <= maxTags
    ensures var t := TagsAfterKey(tags, input, maxTags, key); Distinct(t) && |t| <= maxTags
  {
    var t := TagsAfterKey(tags, input, maxTags, key);
    if key == Enter && JsTrim(input) != "" && |tags| < maxTags && JsTrim(input) !in tags {
      assert t == tags + [JsTrim(input)];
      forall i, j | 0 <= i < j < |t| ensures t[i] != t[j] {
        if j == |tags| {
          assert t[i] == tags[i];
        }
      }
    }
  }

  /** Removing by position keeps the list distinct. */
  lemma RemoveKeepsDistinct(tags: seq<string>, index: int)
    requires Distinct(tags)
    ensures Distinct(WithoutIndex(tags, index))
  {
    var r := WithoutIndex(tags, index);
    if 0 <= index < |tags| {
      forall i, j | 0 <= i < j < |r| ensures r[i] != r[j] {
        var i' := if i < index then i else i + 1;
        var j' := if j < index then j else j + 1;
        assert r[i] == tags[i'] && r[j] == tags[j'];
      }
    }
  }

  /** The editor's state: the tag list (held by the parent and replaced
      through setTags), the text box, and the limit (3 unless given). */
  class TagEditor {
    var tags: seq<string>
    var input: string
    const maxTags: int

    predicate Valid()
      reads this
    {
      Distinct(tags) && |tags| <= maxTags
    }

    constructor (tags: seq<string>, maxTags: int)
      ensures this.tags == tags && this.maxTags == maxTags && input == ""
    {
      this.tags := tags;
      this.maxTags := maxTags;
      this.input := "";
    }

    /** Typing replaces the text box. */
    method SetInput(text: string)
      modifies this
      ensures input == text && tags == old(tags)
    {
      input := text;
    }

    method HandleKeyDown(key: Key)
      modifies this
      ensures tags == TagsAfterKey(old(tags), old(input), maxTags, key)
      ensures input == InputAfterKey(old(tags), old(input), maxTags, key)
      ensures old(Valid()) ==> Valid()
    {
      if Valid() {
        KeyKeepsInvariant(tags, input, maxTags, key);
      }
      var t := JsTrim(input);
      if key == Enter && t != "" {
        if |tags| >= maxTags {
          return;
        }
        if t !in tags {
          tags := tags + [t];
          input := "";
        }
      } else if key == Backspace && input == "" && |tags| > 0 {
        tags := tags[..|tags| - 1];
      }
    }

    method RemoveTag(index: int)
      modifies this
      ensures tags == WithoutIndex(old(tags), index) && input == old(input)
      ensures old(Valid()) ==> Valid()
    {
      if Valid() {
        RemoveKeepsDistinct(tags, index);
      }
      tags := WithoutIndex(tags, index);
    }
  }
}
