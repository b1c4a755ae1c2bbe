/** The option editor shown inside the "Add Field" dialog for dropdown
    fields. It owns only the text of the option being typed; the option list
    itself belongs to the dialog and is written through `setOptions`. */
module Dropdown {
  import opened Js
  import opened Builder

  /** `options.filter((_, i) => i !== index)` over the part of the list that
      starts at position `offset`. */
  function KeepOthers(s: seq<string>, index: int, offset: int): (r: seq<string>)
    ensures |r| <= |s|
  {
    if s == [] then []
    else (if offset == index then [] else [s[0]]) + KeepOthers(s[1..], index, offset + 1)
  }

  /** `options.filter((_, i) => i !== index)` */
  function RemoveAt(s: seq<string>, index: int): (r: seq<string>)
    ensures |r| <= |s|
  {
    KeepOthers(s, index, 0)
  }

  /** The filter over a suffix that does not reach `index` keeps it whole. */
  lemma {:induction false} KeepOthersOutside(s: seq<string>, index: int, offset: int)
    requires !(offset <= index < offset + |s|)
    ensures KeepOthers(s, index, offset) == s
  {
    if s != [] {
      KeepOthersOutside(s[1..], index, offset + 1);
      assert s == [s[0]] + s[1..];
    }
  }

  /** The filter over a suffix that starts at `offset` and reaches `index`
      drops exactly the element at `index`. */
  lemma {:induction false} KeepOthersInside(s: seq<string>, index: int, offset: int)
    requires offset <= index < offset + |s|
    ensures KeepOthers(s, index, offset) == s[..index - offset] + s[index - offset + 1..]
  {
    var k, t := index - offset, s[1..];
    if k == 0 {
      KeepOthersOutside(t, index, offset + 1);
      assert s[..0] + s[1..] == t;
    } else {
      KeepOthersInside(t, index, offset + 1);
      assert KeepOthers(s, index, offset) == [s[0]] + (t[..k - 1] + t[k..]);
      assert s[..k] == [s[0]] + t[..k - 1];
      assert s[k + 1..] == t[k..];
      assert [s[0]] + (t[..k - 1] + t[k..]) == [s[0]] + t[..k - 1] + t[k..];
    }
  }

  /** An index inside the list removes exactly that option, keeping the others
      in order; any other index leaves the list as it was. */
  lemma RemoveAtSpec(s: seq<string>, index: int)
    ensures 0 <= index < |s| ==> RemoveAt(s, index) == s[..index] + s[index + 1..]
    ensures 0 <= index < |s| ==> |RemoveAt(s, index)| == |s| - 1
    ensures !(0 <= index < |s|) ==> RemoveAt(s, index) == s
  {
    if 0 <= index < |s| {
      KeepOthersInside(s, index, 0);
    } else {
      KeepOthersOutside(s, index, 0);
    }
  }

  class DropdownOptions {
    var newOption: string

    constructor ()
      ensures newOption == ""
    {
      newOption := "";
    }

    /** `handleAddOption`: a non-blank entry is appended as typed, duplicates
        included, and the input is cleared; a blank entry changes nothing. */
    method HandleAddOption(owner: FormBuilder)
      modifies this`newOption, owner`dropdownOptions
      ensures !IsBlank(old(newOption)) ==>
        owner.dropdownOptions == old(owner.dropdownOptions) + [old(newOption)] && newOption == ""
      ensures IsBlank(old(newOption)) ==>
        owner.dropdownOptions == old(owner.dropdownOptions) && newOption == old(newOption)
    {
      if !IsBlank(newOption) {
        owner.dropdownOptions := owner.dropdownOptions + [newOption];
        newOption := "";
      }
    }

    /** `handleRemoveOption` */
    method HandleRemoveOption(owner: FormBuilder, index: int)
      modifies owner`dropdownOptions
      ensures owner.dropdownOptions == RemoveAt(old(owner.dropdownOptions), index)
    {
      owner.dropdownOptions := RemoveAt(owner.dropdownOptions, index);
    }
  }
}
