/** The avatar of the social clone: a size class from a fixed table, a
    background colour chosen from the characters of the user's id, and the
    text shown when there is no picture. */
module Avatar {
  import opened Common
  import opened JsText

  /** The ten background colours, in table order. */
  const Colors: seq<string> := ["bg-red-500", "bg-blue-500", "bg-green-500", "bg-yellow-500", "bg-purple-500",
                                "bg-pink-500", "bg-indigo-500", "bg-orange-500", "bg-teal-500", "bg-cyan-500"]

  /** The colour of an empty id. */
  const NoIdColor := "bg-gray-600"

  /** The sum of the character codes of `s`: the `reduce` in `getColorFromId`. */
  function CodeSum(s: string): (n: nat)
    ensures |s| > 0 ==> n >= s[0] as nat
  {
    if |s| == 0 then 0 else s[0] as nat + CodeSum(s[1..])
  }

  /** The `reduce` adds the codes from the left: the sum of `s` is the sum
      of all but its last character plus that character's code. */
  lemma {:induction false} CodeSumAppend(s: string, c: char)
    ensures CodeSum(s + [c]) == CodeSum(s) + c as nat
    decreases |s|
  {
    if |s| == 0 {
      assert [c][1..] == [];
    } else {
      assert (s + [c])[1..] == s[1..] + [c];
      CodeSumAppend(s[1..], c);
    }
  }

  /** `getColorFromId(id)`: grey for an empty id, otherwise the table entry
      at the code sum modulo ten. */
  function ColorFromId(id: string): (color: string)
    ensures id == "" <==> color == NoIdColor
    ensures id != "" ==> color == Colors[CodeSum(id) % |Colors|] && color in Colors
  {
    if id == "" then NoIdColor else Colors[CodeSum(id) % |Colors|]
  }

  /** Taking one character out of the middle takes its code out of the sum. */
  lemma {:induction false} CodeSumRemove(s: string, i: nat)
    requires i < |s|
    ensures CodeSum(s) == s[i] as nat + CodeSum(s[..i] + s[i + 1..])
  {
    if i > 0 {
      CodeSumRemove(s[1..], i - 1);
      assert s[1..][..i - 1] + s[1..][i..] == (s[..i] + s[i + 1..])[1..];
    } else {
      assert s[..i] + s[i + 1..] == s[1..];
    }
  }

  /** Ids made of the same characters in any order have the same code sum. */
  lemma {:induction false} CodeSumPermutation(a: string, b: string)
    requires multiset(a) == multiset(b)
    ensures CodeSum(a) == CodeSum(b)
    decreases |a|
  {
    if |a| > 0 {
      assert a[0] in multiset(b);
      var i :| 0 <= i < |b| && b[i] == a[0];
      var rest := b[..i] + b[i + 1..];
      assert b == b[..i] + [b[i]] + b[i + 1..];
      assert a == [a[0]] + a[1..];
      assert multiset(b) == multiset(b[..i]) + multiset{a[0]} + multiset(b[i + 1..]);
      assert multiset(b) == multiset(rest) + multiset{a[0]};
      assert multiset(a) == multiset{a[0]} + multiset(a[1..]);
      assert multiset(rest) == multiset(b) - multiset{a[0]};
      assert multiset(a[1..]) == multiset(a) - multiset{a[0]};
      CodeSumPermutation(a[1..], rest);
      CodeSumRemove(b, i);
    } else {
      assert |b| == 0;
    }
  }

  /** Permuted ids get the same colour. */
  lemma PermutedIdsShareColor(a: string, b: string)
    requires multiset(a) == multiset(b)
    ensures ColorFromId(a) == ColorFromId(b)
  {
    CodeSumPermutation(a, b);
  }

  /** The six sizes with their own class. */
  const SizeClasses: map<int, string> :=
    map[32 := "w-8 h-8", 40 := "w-10 h-10", 48 := "w-12 h-12", 64 := "w-16 h-16", 80 := "w-20 h-20", 128 := "w-32 h-32"]

  /** `sizeMap[size] || "w-10 h-10"`, with `size` defaulting to 40. */
  function SizeClass(size: Option<int>): (c: string)
    ensures size.Some? && size.value in SizeClasses ==> c == SizeClasses[size.value]
    ensures size.None? || size.value !in SizeClasses ==> c == "w-10 h-10"
  {
    var s := if size.Some? then size.value else 40;
    if s in SizeClasses then SizeClasses[s] else "w-10 h-10"
  }

  /** `getColorFromId(userId || alt)`: the id when there is one, else the
      alternative text. */
  function Background(userId: string, alt: string): (color: string)
    ensures userId != "" ==> color == ColorFromId(userId)
    ensures userId == "" ==> color == ColorFromId(alt)
  {
    ColorFromId(if userId != "" then userId else alt)
  }

  /** `fallbackText?.toUpperCase() || alt?.charAt(0)?.toUpperCase() || 'U'`:
      the upper-cased fallback text when it is non-empty, else the upper-cased
      first character of `alt`, else "U"; never empty, and free of lower-case
      ASCII letters. */
  function FallbackText(fallbackText: Option<string>, alt: string): (t: string)
    ensures |t| > 0
    ensures forall i :: 0 <= i < |t| ==> !IsLowerAscii(t[i])
    ensures fallbackText.Some? && fallbackText.value != "" ==> t == ToUpperAscii(fallbackText.value)
    ensures (fallbackText.None? || fallbackText.value == "") && alt != "" ==> t == ToUpperAscii(alt[..1])
    ensures fallbackText.Some? && fallbackText.value != "" ==> |t| == |fallbackText.value|
    ensures (fallbackText.None? || fallbackText.value == "") && alt != "" ==> |t| == 1
    ensures (fallbackText.None? || fallbackText.value == "") && alt == "" ==> t == "U"
  {
    if fallbackText.Some? && fallbackText.value != "" then ToUpperAscii(fallbackText.value)
    else if alt != "" then ToUpperAscii(alt[..1])
    else "U"
  }
}
