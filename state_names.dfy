/**
 * The closed vocabulary that maps a state's full name to its two-letter
 * abbreviation (`_state_name_to_abbr`, 50 states and the District of
 * Columbia), and the inverted map the fallback providers build from it.
 *
 * A state is its position in the dictionary; a dictionary lookup is a
 * search through `AllStates` in the dictionary's order.
 */
module StateNames {
  import opened Wrappers

  /** A vocabulary entry, by its position in the dictionary: 0 is Alabama, 50 the District of Columbia. */
  type State = i: nat | i < 51

  /** The dictionary's entries, in the order the source lists them. */
  function AllStates(): (ss: seq<State>)
    ensures |ss| == 51 && forall i :: 0 <= i < 51 ==> ss[i] == i
  {
    seq(51, i requires 0 <= i < 51 => i)
  }

  /** The full name: the dictionary key. The table is split in blocks of ten entries. */
  function Name(s: State): string {
    if s < 10 then NameFrom0(s)
    else if s < 20 then NameFrom10(s)
    else if s < 30 then NameFrom20(s)
    else if s < 40 then NameFrom30(s)
    else NameFrom40(s)
  }

  function NameFrom0(s: State): string
    requires 0 <= s < 10
  {
    match s
    case 0 => "Alabama"
    case 1 => "Alaska"
    case 2 => "Arizona"
    case 3 => "Arkansas"
    case 4 => "California"
    case 5 => "Colorado"
    case 6 => "Connecticut"
    case 7 => "Delaware"
    case 8 => "Florida"
    case _ => "Georgia"
  }

  function NameFrom10(s: State): string
    requires 10 <= s < 20
  {
    match s
    case 10 => "Hawaii"
    case 11 => "Idaho"
    case 12 => "Illinois"
    case 13 => "Indiana"
    case 14 => "Iowa"
    case 15 => "Kansas"
    case 16 => "Kentucky"
    case 17 => "Louisiana"
    case 18 => "Maine"
    case _ => "Maryland"
  }

  function NameFrom20(s: State): string
    requires 20 <= s < 30
  {
    match s
    case 20 => "Massachusetts"
    case 21 => "Michigan"
    case 22 => "Minnesota"
    case 23 => "Mississippi"
    case 24 => "Missouri"
    case 25 => "Montana"
    case 26 => "Nebraska"
    case 27 => "Nevada"
    case 28 => "New Hampshire"
    case _ => "New Jersey"
  }

  function NameFrom30(s: State): string
    requires 30 <= s < 40
  {
    match s
    case 30 => "New Mexico"
    case 31 => "New York"
    case 32 => "North Carolina"
    case 33 => "North Dakota"
    case 34 => "Ohio"
    case 35 => "Oklahoma"
    case 36 => "Oregon"
    case 37 => "Pennsylvania"
    case 38 => "Rhode Island"
    case _ => "South Carolina"
  }

  function NameFrom40(s: State): string
    requires 40 <= s
  {
    match s
    case 40 => "South Dakota"
    case 41 => "Tennessee"
    case 42 => "Texas"
    case 43 => "Utah"
    case 44 => "Vermont"
    case 45 => "Virginia"
    case 46 => "Washington"
    case 47 => "West Virginia"
    case 48 => "Wisconsin"
    case 49 => "Wyoming"
    case _ => "District of Columbia"
  }

  /** The two-letter abbreviation: the dictionary value. */
  function Abbr(s: State): string {
    if s < 10 then AbbrFrom0(s)
    else if s < 20 then AbbrFrom10(s)
    else if s < 30 then AbbrFrom20(s)
    else if s < 40 then AbbrFrom30(s)
    else AbbrFrom40(s)
  }

  function AbbrFrom0(s: State): string
    requires 0 <= s < 10
  {
    match s
    case 0 => "AL"
    case 1 => "AK"
    case 2 => "AZ"
    case 3 => "AR"
    case 4 => "CA"
    case 5 => "CO"
    case 6 => "CT"
    case 7 => "DE"
    case 8 => "FL"
    case _ => "GA"
  }

  function AbbrFrom10(s: State): string
    requires 10 <= s < 20
  {
    match s
    case 10 => "HI"
    case 11 => "ID"
    case 12 => "IL"
    case 13 => "IN"
    case 14 => "IA"
    case 15 => "KS"
    case 16 => "KY"
    case 17 => "LA"
    case 18 => "ME"
    case _ => "MD"
  }

  function AbbrFrom20(s: State): string
    requires 20 <= s < 30
  {
    match s
    case 20 => "MA"
    case 21 => "MI"
    case 22 => "MN"
    case 23 => "MS"
    case 24 => "MO"
    case 25 => "MT"
    case 26 => "NE"
    case 27 => "NV"
    case 28 => "NH"
    case _ => "NJ"
  }

  function AbbrFrom30(s: State): string
    requires 30 <= s < 40
  {
    match s
    case 30 => "NM"
    case 31 => "NY"
    case 32 => "NC"
    case 33 => "ND"
    case 34 => "OH"
    case 35 => "OK"
    case 36 => "OR"
    case 37 => "PA"
    case 38 => "RI"
    case _ => "SC"
  }

  function AbbrFrom40(s: State): string
    requires 40 <= s
  {
    match s
    case 40 => "SD"
    case 41 => "TN"
    case 42 => "TX"
    case 43 => "UT"
    case 44 => "VT"
    case 45 => "VA"
    case 46 => "WA"
    case 47 => "WV"
    case 48 => "WI"
    case 49 => "WY"
    case _ => "DC"
  }

  // ---------------------------------------------------------------------
  // no two entries share a name or an abbreviation
  // ---------------------------------------------------------------------

  /** A number read off a name's first, third and last characters and its length; the 51 names give 51 different numbers. */
  function NameKey(n: string): int {
    if |n| >= 3 then ((n[0] as int * 128 + n[2] as int) * 128 + n[|n| - 1] as int) * 64 + |n| else -1
  }

  /** The entry whose name has key `k`, if any: a binary search over the 51 keys in increasing order. */
  function StateOfNameKey(k: int): Option<State> {
    if k < 81689163 then
      if k < 77347781 then
        if k < 71163147 then
          if k < 69041352 then
            if k < 68958279 then
              if k == 68958278 then Some(1) else None
            else
              if k < 69023815 then
                if k == 68958279 then Some(0) else None
              else
                if k == 69023815 then Some(2) else None
          else
            if k < 71145546 then
              if k == 69041352 then Some(3) else None
            else
              if k < 71146440 then
                if k == 71145546 then Some(4) else None
              else
                if k == 71146440 then Some(5) else None
        else
          if k < 74315847 then
            if k < 72194376 then
              if k == 71163147 then Some(6) else None
            else
              if k < 72251476 then
                if k == 72194376 then Some(7) else None
              else
                if k == 72251476 then Some(50) else None
          else
            if k < 75364423 then
              if k == 74315847 then Some(8) else None
            else
              if k < 76479046 then
                if k == 75364423 then Some(9) else None
              else
                if k == 76479046 then Some(10) else None
      else
        if k < 80656457 then
          if k < 77527108 then
            if k < 77371463 then
              if k == 77347781 then Some(11) else None
            else
              if k < 77438152 then
                if k == 77371463 then Some(13) else None
              else
                if k == 77438152 then Some(12) else None
          else
            if k < 79551686 then
              if k == 77527108 then Some(14) else None
            else
              if k < 79552072 then
                if k == 79551686 then Some(15) else None
              else
                if k == 79552072 then Some(16) else None
        else
          if k < 81647687 then
            if k < 81558408 then
              if k == 80656457 then Some(17) else None
            else
              if k < 81606981 then
                if k == 81558408 then Some(21) else None
              else
                if k == 81606981 then Some(18) else None
          else
            if k < 81680648 then
              if k < 81647689 then
                if k == 81647687 then Some(25) else None
              else
                if k == 81647689 then Some(22) else None
            else
              if k < 81689160 then
                if k == 81680648 then Some(19) else None
              else
                if k == 81689160 then Some(24) else None
    else
      if k < 84793420 then
        if k < 82770253 then
          if k < 82729036 then
            if k < 81689805 then
              if k == 81689163 then Some(23) else None
            else
              if k < 82597960 then
                if k == 81689805 then Some(20) else None
              else
                if k == 82597960 then Some(26) else None
          else
            if k < 82729038 then
              if k == 82729036 then Some(33) else None
            else
              if k < 82761798 then
                if k == 82729038 then Some(32) else None
              else
                if k == 82761798 then Some(27) else None
        else
          if k < 82771530 then
            if k < 82770632 then
              if k == 82770253 then Some(28) else None
            else
              if k < 82770890 then
                if k == 82770632 then Some(31) else None
              else
                if k == 82770890 then Some(30) else None
          else
            if k < 83704772 then
              if k < 83671942 then
                if k == 82771530 then Some(29) else None
              else
                if k == 83671942 then Some(36) else None
            else
              if k < 83728456 then
                if k == 83704772 then Some(34) else None
              else
                if k == 83728456 then Some(35) else None
      else
        if k < 89930244 then
          if k < 87996494 then
            if k < 86898956 then
              if k == 84793420 then Some(37) else None
            else
              if k < 87996492 then
                if k == 86898956 then Some(38) else None
              else
                if k == 87996492 then Some(40) else None
          else
            if k < 88987977 then
              if k == 87996494 then Some(39) else None
            else
              if k < 89070789 then
                if k == 88987977 then Some(41) else None
              else
                if k == 89070789 then Some(42) else None
        else
          if k < 92142023 then
            if k < 91117640 then
              if k == 89930244 then Some(43) else None
            else
              if k < 91118855 then
                if k == 91117640 then Some(45) else None
              else
                if k == 91118855 then Some(44) else None
          else
            if k < 92175241 then
              if k < 92174413 then
                if k == 92142023 then Some(49) else None
              else
                if k == 92174413 then Some(47) else None
            else
              if k < 92175242 then
                if k == 92175241 then Some(48) else None
              else
                if k == 92175242 then Some(46) else None
  }

  predicate IsUpperLetter(c: char) { 'A' <= c <= 'Z' }

  /** A number read off two upper-case letters; anything else gives -1. */
  function AbbrKey(a: string): int {
    if |a| == 2 && IsUpperLetter(a[0]) && IsUpperLetter(a[1]) then a[0] as int * 128 + a[1] as int else -1
  }

  /** The entry whose abbreviation has key `k`, if any. */
  function StateOfAbbrKey(k: int): Option<State> {
    if k < 9939 then
      if k < 9409 then
        if k < 8660 then
          if k < 8410 then
            if k < 8396 then
              if k == 8395 then Some(1) else None
            else
              if k < 8402 then
                if k == 8396 then Some(0) else None
              else
                if k == 8402 then Some(3) else None
          else
            if k < 8641 then
              if k == 8410 then Some(2) else None
            else
              if k < 8655 then
                if k == 8641 then Some(4) else None
              else
                if k == 8655 then Some(5) else None
        else
          if k < 9036 then
            if k < 8771 then
              if k == 8660 then Some(6) else None
            else
              if k < 8773 then
                if k == 8771 then Some(50) else None
              else
                if k == 8773 then Some(7) else None
          else
            if k < 9153 then
              if k == 9036 then Some(8) else None
            else
              if k < 9289 then
                if k == 9153 then Some(9) else None
              else
                if k == 9289 then Some(10) else None
      else
        if k < 9793 then
          if k < 9422 then
            if k < 9412 then
              if k == 9409 then Some(14) else None
            else
              if k < 9420 then
                if k == 9412 then Some(11) else None
              else
                if k == 9420 then Some(12) else None
          else
            if k < 9683 then
              if k == 9422 then Some(13) else None
            else
              if k < 9689 then
                if k == 9683 then Some(15) else None
              else
                if k == 9689 then Some(16) else None
        else
          if k < 9925 then
            if k < 9921 then
              if k == 9793 then Some(17) else None
            else
              if k < 9924 then
                if k == 9921 then Some(20) else None
              else
                if k == 9924 then Some(19) else None
          else
            if k < 9934 then
              if k < 9929 then
                if k == 9925 then Some(18) else None
              else
                if k == 9929 then Some(21) else None
            else
              if k < 9935 then
                if k == 9934 then Some(22) else None
              else
                if k == 9935 then Some(24) else None
    else
      if k < 10305 then
        if k < 10058 then
          if k < 10052 then
            if k < 9940 then
              if k == 9939 then Some(23) else None
            else
              if k < 10051 then
                if k == 9940 then Some(25) else None
              else
                if k == 10051 then Some(32) else None
          else
            if k < 10053 then
              if k == 10052 then Some(33) else None
            else
              if k < 10056 then
                if k == 10053 then Some(26) else None
              else
                if k == 10056 then Some(28) else None
        else
          if k < 10073 then
            if k < 10061 then
              if k == 10058 then Some(29) else None
            else
              if k < 10070 then
                if k == 10061 then Some(30) else None
              else
                if k == 10070 then Some(27) else None
          else
            if k < 10187 then
              if k < 10184 then
                if k == 10073 then Some(31) else None
              else
                if k == 10184 then Some(34) else None
            else
              if k < 10194 then
                if k == 10187 then Some(35) else None
              else
                if k == 10194 then Some(36) else None
      else
        if k < 10964 then
          if k < 10692 then
            if k < 10569 then
              if k == 10305 then Some(37) else None
            else
              if k < 10691 then
                if k == 10569 then Some(38) else None
              else
                if k == 10691 then Some(39) else None
          else
            if k < 10830 then
              if k == 10692 then Some(40) else None
            else
              if k < 10840 then
                if k == 10830 then Some(41) else None
              else
                if k == 10840 then Some(42) else None
        else
          if k < 11201 then
            if k < 11073 then
              if k == 10964 then Some(43) else None
            else
              if k < 11092 then
                if k == 11073 then Some(45) else None
              else
                if k == 11092 then Some(44) else None
          else
            if k < 11222 then
              if k < 11209 then
                if k == 11201 then Some(46) else None
              else
                if k == 11209 then Some(48) else None
            else
              if k < 11225 then
                if k == 11222 then Some(47) else None
              else
                if k == 11225 then Some(49) else None
  }

  lemma NameKeysFrom0(s: State)
    requires 0 <= s < 5
    ensures StateOfNameKey(NameKey(Name(s))) == Some(s)
  {
    if s == 0 {
      assert Name(0) == "Alabama";
      assert NameKey("Alabama") == 68958279;
    } else if s == 1 {
      assert Name(1) == "Alaska";
      assert NameKey("Alaska") == 68958278;
    } else if s == 2 {
      assert Name(2) == "Arizona";
      assert NameKey("Arizona") == 69023815;
    } else if s == 3 {
      assert Name(3) == "Arkansas";
      assert NameKey("Arkansas") == 69041352;
    } else {
      assert Name(4) == "California";
      assert NameKey("California") == 71145546;
    }
  }

  lemma NameKeysFrom5(s: State)
    requires 5 <= s < 10
    ensures StateOfNameKey(NameKey(Name(s))) == Some(s)
  {
    if s == 5 {
      assert Name(5) == "Colorado";
      assert NameKey("Colorado") == 71146440;
    } else if s == 6 {
      assert Name(6) == "Connecticut";
      assert NameKey("Connecticut") == 71163147;
    } else if s == 7 {
      assert Name(7) == "Delaware";
      assert NameKey("Delaware") == 72194376;
    } else if s == 8 {
      assert Name(8) == "Florida";
      assert NameKey("Florida") == 74315847;
    } else {
      assert Name(9) == "Georgia";
      assert NameKey("Georgia") == 75364423;
    }
  }

  lemma NameKeysFrom10(s: State)
    requires 10 <= s < 15
    ensures StateOfNameKey(NameKey(Name(s))) == Some(s)
  {
    if s == 10 {
      assert Name(10) == "Hawaii";
      assert NameKey("Hawaii") == 76479046;
    } else if s == 11 {
      assert Name(11) == "Idaho";
      assert NameKey("Idaho") == 77347781;
    } else if s == 12 {
      assert Name(12) == "Illinois";
      assert NameKey("Illinois") == 77438152;
    } else if s == 13 {
      assert Name(13) == "Indiana";
      assert NameKey("Indiana") == 77371463;
    } else {
      assert Name(14) == "Iowa";
      assert NameKey("Iowa") == 77527108;
    }
  }

  lemma NameKeysFrom15(s: State)
    requires 15 <= s < 20
    ensures StateOfNameKey(NameKey(Name(s))) == Some(s)
  {
    if s == 15 {
      assert Name(15) == "Kansas";
      assert NameKey("Kansas") == 79551686;
    } else if s == 16 {
      assert Name(16) == "Kentucky";
      assert NameKey("Kentucky") == 79552072;
    } else if s == 17 {
      assert Name(17) == "Louisiana";
      assert NameKey("Louisiana") == 80656457;
    } else if s == 18 {
      assert Name(18) == "Maine";
      assert NameKey("Maine") == 81606981;
    } else {
      assert Name(19) == "Maryland";
      assert NameKey("Maryland") == 81680648;
    }
  }

  lemma NameKeysFrom20(s: State)
    requires 20 <= s < 25
    ensures StateOfNameKey(NameKey(Name(s))) == Some(s)
  {
    if s == 20 {
      assert Name(20) == "Massachusetts";
      assert NameKey("Massachusetts") == 81689805;
    } else if s == 21 {
      assert Name(21) == "Michigan";
      assert NameKey("Michigan") == 81558408;
    } else if s == 22 {
      assert Name(22) == "Minnesota";
      assert NameKey("Minnesota") == 81647689;
    } else if s == 23 {
      assert Name(23) == "Mississippi";
      assert NameKey("Mississippi") == 81689163;
    } else {
      assert Name(24) == "Missouri";
      assert NameKey("Missouri") == 81689160;
    }
  }

  lemma NameKeysFrom25(s: State)
    requires 25 <= s < 30
    ensures StateOfNameKey(NameKey(Name(s))) == Some(s)
  {
    if s == 25 {
      assert Name(25) == "Montana";
      assert NameKey("Montana") == 81647687;
    } else if s == 26 {
      assert Name(26) == "Nebraska";
      assert NameKey("Nebraska") == 82597960;
    } else if s == 27 {
      assert Name(27) == "Nevada";
      assert NameKey("Nevada") == 82761798;
    } else if s == 28 {
      assert Name(28) == "New Hampshire";
      assert NameKey("New Hampshire") == 82770253;
    } else {
      assert Name(29) == "New Jersey";
      assert NameKey("New Jersey") == 82771530;
    }
  }

  lemma NameKeysFrom30(s: State)
    requires 30 <= s < 35
    ensures StateOfNameKey(NameKey(Name(s))) == Some(s)
  {
    if s == 30 {
      assert Name(30) == "New Mexico";
      assert NameKey("New Mexico") == 82770890;
    } else if s == 31 {
      assert Name(31) == "New York";
      assert NameKey("New York") == 82770632;
    } else if s == 32 {
      assert Name(32) == "North Carolina";
      assert NameKey("North Carolina") == 82729038;
    } else if s == 33 {
      assert Name(33) == "North Dakota";
      assert NameKey("North Dakota") == 82729036;
    } else {
      assert Name(34) == "Ohio";
      assert NameKey("Ohio") == 83704772;
    }
  }

  lemma NameKeysFrom35(s: State)
    requires 35 <= s < 40
    ensures StateOfNameKey(NameKey(Name(s))) == Some(s)
  {
    if s == 35 {
      assert Name(35) == "Oklahoma";
      assert NameKey("Oklahoma") == 83728456;
    } else if s == 36 {
      assert Name(36) == "Oregon";
      assert NameKey("Oregon") == 83671942;
    } else if s == 37 {
      assert Name(37) == "Pennsylvania";
      assert NameKey("Pennsylvania") == 84793420;
    } else if s == 38 {
      assert Name(38) == "Rhode Island";
      assert NameKey("Rhode Island") == 86898956;
    } else {
      assert Name(39) == "South Carolina";
      assert NameKey("South Carolina") == 87996494;
    }
  }

  lemma NameKeysFrom40(s: State)
    requires 40 <= s < 45
    ensures StateOfNameKey(NameKey(Name(s))) == Some(s)
  {
    if s == 40 {
      assert Name(40) == "South Dakota";
      assert NameKey("South Dakota") == 87996492;
    } else if s == 41 {
      assert Name(41) == "Tennessee";
      assert NameKey("Tennessee") == 88987977;
    } else if s == 42 {
      assert Name(42) == "Texas";
      assert NameKey("Texas") == 89070789;
    } else if s == 43 {
      assert Name(43) == "Utah";
      assert NameKey("Utah") == 89930244;
    } else {
      assert Name(44) == "Vermont";
      assert NameKey("Vermont") == 91118855;
    }
  }

  lemma NameKeysFrom45(s: State)
    requires 45 <= s < 48
    ensures StateOfNameKey(NameKey(Name(s))) == Some(s)
  {
    if s == 45 {
      assert Name(45) == "Virginia";
      assert NameKey("Virginia") == 91117640;
    } else if s == 46 {
      assert Name(46) == "Washington";
      assert NameKey("Washington") == 92175242;
    } else {
      assert Name(47) == "West Virginia";
      assert NameKey("West Virginia") == 92174413;
    }
  }

  lemma NameKeysFrom48(s: State)
    requires 48 <= s
    ensures StateOfNameKey(NameKey(Name(s))) == Some(s)
  {
    if s == 48 {
      assert Name(48) == "Wisconsin";
      assert NameKey("Wisconsin") == 92175241;
    } else if s == 49 {
      assert Name(49) == "Wyoming";
      assert NameKey("Wyoming") == 92142023;
    } else {
      assert Name(50) == "District of Columbia";
      assert NameKey("District of Columbia") == 72251476;
    }
  }

  /** Each name's key leads back to its entry. */
  lemma NameKeyInverse(s: State)
    ensures StateOfNameKey(NameKey(Name(s))) == Some(s)
  {
    if s < 5 {
      NameKeysFrom0(s);
    } else if s < 10 {
      NameKeysFrom5(s);
    } else if s < 15 {
      NameKeysFrom10(s);
    } else if s < 20 {
      NameKeysFrom15(s);
    } else if s < 25 {
      NameKeysFrom20(s);
    } else if s < 30 {
      NameKeysFrom25(s);
    } else if s < 35 {
      NameKeysFrom30(s);
    } else if s < 40 {
      NameKeysFrom35(s);
    } else if s < 45 {
      NameKeysFrom40(s);
    } else if s < 48 {
      NameKeysFrom45(s);
    } else {
      NameKeysFrom48(s);
    }
  }

  lemma AbbrKeysFrom0(s: State)
    requires 0 <= s < 10
    ensures StateOfAbbrKey(AbbrKey(Abbr(s))) == Some(s)
  {
    if s == 0 {
      assert Abbr(0) == "AL";
      assert AbbrKey("AL") == 8396;
    } else if s == 1 {
      assert Abbr(1) == "AK";
      assert AbbrKey("AK") == 8395;
    } else if s == 2 {
      assert Abbr(2) == "AZ";
      assert AbbrKey("AZ") == 8410;
    } else if s == 3 {
      assert Abbr(3) == "AR";
      assert AbbrKey("AR") == 8402;
    } else if s == 4 {
      assert Abbr(4) == "CA";
      assert AbbrKey("CA") == 8641;
    } else if s == 5 {
      assert Abbr(5) == "CO";
      assert AbbrKey("CO") == 8655;
    } else if s == 6 {
      assert Abbr(6) == "CT";
      assert AbbrKey("CT") == 8660;
    } else if s == 7 {
      assert Abbr(7) == "DE";
      assert AbbrKey("DE") == 8773;
    } else if s == 8 {
      assert Abbr(8) == "FL";
      assert AbbrKey("FL") == 9036;
    } else {
      assert Abbr(9) == "GA";
      assert AbbrKey("GA") == 9153;
    }
  }

  lemma AbbrKeysFrom10(s: State)
    requires 10 <= s < 20
    ensures StateOfAbbrKey(AbbrKey(Abbr(s))) == Some(s)
  {
    if s == 10 {
      assert Abbr(10) == "HI";
      assert AbbrKey("HI") == 9289;
    } else if s == 11 {
      assert Abbr(11) == "ID";
      assert AbbrKey("ID") == 9412;
    } else if s == 12 {
      assert Abbr(12) == "IL";
      assert AbbrKey("IL") == 9420;
    } else if s == 13 {
      assert Abbr(13) == "IN";
      assert AbbrKey("IN") == 9422;
    } else if s == 14 {
      assert Abbr(14) == "IA";
      assert AbbrKey("IA") == 9409;
    } else if s == 15 {
      assert Abbr(15) == "KS";
      assert AbbrKey("KS") == 9683;
    } else if s == 16 {
      assert Abbr(16) == "KY";
      assert AbbrKey("KY") == 9689;
    } else if s == 17 {
      assert Abbr(17) == "LA";
      assert AbbrKey("LA") == 9793;
    } else if s == 18 {
      assert Abbr(18) == "ME";
      assert AbbrKey("ME") == 9925;
    } else {
      assert Abbr(19) == "MD";
      assert AbbrKey("MD") == 9924;
    }
  }

  lemma AbbrKeysFrom20(s: State)
    requires 20 <= s < 30
    ensures StateOfAbbrKey(AbbrKey(Abbr(s))) == Some(s)
  {
    if s == 20 {
      assert Abbr(20) == "MA";
      assert AbbrKey("MA") == 9921;
    } else if s == 21 {
      assert Abbr(21) == "MI";
      assert AbbrKey("MI") == 9929;
    } else if s == 22 {
      assert Abbr(22) == "MN";
      assert AbbrKey("MN") == 9934;
    } else if s == 23 {
      assert Abbr(23) == "MS";
      assert AbbrKey("MS") == 9939;
    } else if s == 24 {
      assert Abbr(24) == "MO";
      assert AbbrKey("MO") == 9935;
    } else if s == 25 {
      assert Abbr(25) == "MT";
      assert AbbrKey("MT") == 9940;
    } else if s == 26 {
      assert Abbr(26) == "NE";
      assert AbbrKey("NE") == 10053;
    } else if s == 27 {
      assert Abbr(27) == "NV";
      assert AbbrKey("NV") == 10070;
    } else if s == 28 {
      assert Abbr(28) == "NH";
      assert AbbrKey("NH") == 10056;
    } else {
      assert Abbr(29) == "NJ";
      assert AbbrKey("NJ") == 10058;
    }
  }

  lemma AbbrKeysFrom30(s: State)
    requires 30 <= s < 40
    ensures StateOfAbbrKey(AbbrKey(Abbr(s))) == Some(s)
  {
    if s == 30 {
      assert Abbr(30) == "NM";
      assert AbbrKey("NM") == 10061;
    } else if s == 31 {
      assert Abbr(31) == "NY";
      assert AbbrKey("NY") == 10073;
    } else if s == 32 {
      assert Abbr(32) == "NC";
      assert AbbrKey("NC") == 10051;
    } else if s == 33 {
      assert Abbr(33) == "ND";
      assert AbbrKey("ND") == 10052;
    } else if s == 34 {
      assert Abbr(34) == "OH";
      assert AbbrKey("OH") == 10184;
    } else if s == 35 {
      assert Abbr(35) == "OK";
      assert AbbrKey("OK") == 10187;
    } else if s == 36 {
      assert Abbr(36) == "OR";
      assert AbbrKey("OR") == 10194;
    } else if s == 37 {
      assert Abbr(37) == "PA";
      assert AbbrKey("PA") == 10305;
    } else if s == 38 {
      assert Abbr(38) == "RI";
      assert AbbrKey("RI") == 10569;
    } else {
      assert Abbr(39) == "SC";
      assert AbbrKey("SC") == 10691;
    }
  }

  lemma AbbrKeysFrom40(s: State)
    requires 40 <= s
    ensures StateOfAbbrKey(AbbrKey(Abbr(s))) == Some(s)
  {
    if s == 40 {
      assert Abbr(40) == "SD";
      assert AbbrKey("SD") == 10692;
    } else if s == 41 {
      assert Abbr(41) == "TN";
      assert AbbrKey("TN") == 10830;
    } else if s == 42 {
      assert Abbr(42) == "TX";
      assert AbbrKey("TX") == 10840;
    } else if s == 43 {
      assert Abbr(43) == "UT";
      assert AbbrKey("UT") == 10964;
    } else if s == 44 {
      assert Abbr(44) == "VT";
      assert AbbrKey("VT") == 11092;
    } else if s == 45 {
      assert Abbr(45) == "VA";
      assert AbbrKey("VA") == 11073;
    } else if s == 46 {
      assert Abbr(46) == "WA";
      assert AbbrKey("WA") == 11201;
    } else if s == 47 {
      assert Abbr(47) == "WV";
      assert AbbrKey("WV") == 11222;
    } else if s == 48 {
      assert Abbr(48) == "WI";
      assert AbbrKey("WI") == 11209;
    } else if s == 49 {
      assert Abbr(49) == "WY";
      assert AbbrKey("WY") == 11225;
    } else {
      assert Abbr(50) == "DC";
      assert AbbrKey("DC") == 8771;
    }
  }

  /** Each abbreviation's key leads back to its entry. */
  lemma AbbrKeyInverse(s: State)
    ensures StateOfAbbrKey(AbbrKey(Abbr(s))) == Some(s)
  {
    if s < 10 {
      AbbrKeysFrom0(s);
    } else if s < 20 {
      AbbrKeysFrom10(s);
    } else if s < 30 {
      AbbrKeysFrom20(s);
    } else if s < 40 {
      AbbrKeysFrom30(s);
    } else {
      AbbrKeysFrom40(s);
    }
  }

  /** No two entries share a name. */
  lemma NameInjective(s: State, t: State)
    ensures Name(s) == Name(t) ==> s == t
  {
    NameKeyInverse(s);
    NameKeyInverse(t);
  }

  /** No two entries share an abbreviation. */
  lemma AbbrInjective(s: State, t: State)
    ensures Abbr(s) == Abbr(t) ==> s == t
  {
    AbbrKeyInverse(s);
    AbbrKeyInverse(t);
  }

  /** Every abbreviation is two upper-case letters. */
  lemma AbbrShape(s: State)
    ensures |Abbr(s)| == 2 && IsUpperLetter(Abbr(s)[0]) && IsUpperLetter(Abbr(s)[1])
  {
    AbbrKeyInverse(s);
  }

  /** The vocabulary has 51 entries, and no name or abbreviation is listed twice. */
  lemma VocabularySize()
    ensures |AllStates()| == 51
    ensures forall i, j :: 0 <= i < j < |AllStates()| ==>
      Name(AllStates()[i]) != Name(AllStates()[j]) && Abbr(AllStates()[i]) != Abbr(AllStates()[j])
  {
    forall i, j | 0 <= i < j < |AllStates()|
      ensures Name(AllStates()[i]) != Name(AllStates()[j]) && Abbr(AllStates()[i]) != Abbr(AllStates()[j])
    {
      NameInjective(AllStates()[i], AllStates()[j]);
      AbbrInjective(AllStates()[i], AllStates()[j]);
    }
  }

  lemma AllStatesComplete(s: State)
    ensures s in AllStates()
  {
    assert AllStates()[s] == s;
  }

  /** The first state in `ss` whose name is `n`. */
  function FindByName(n: string, ss: seq<State>): Option<State> {
    if ss == [] then None
    else if Name(ss[0]) == n then Some(ss[0])
    else FindByName(n, ss[1..])
  }

  /** The first state in `ss` whose abbreviation is `a`. */
  function FindByAbbr(a: string, ss: seq<State>): Option<State> {
    if ss == [] then None
    else if Abbr(ss[0]) == a then Some(ss[0])
    else FindByAbbr(a, ss[1..])
  }

  lemma {:induction false} FindByNameSpec(n: string, ss: seq<State>)
    ensures FindByName(n, ss).Some? ==> FindByName(n, ss).value in ss && Name(FindByName(n, ss).value) == n
    ensures FindByName(n, ss).None? ==> forall s :: s in ss ==> Name(s) != n
  {
    if ss != [] {
      FindByNameSpec(n, ss[1..]);
      assert forall s :: s in ss ==> s == ss[0] || s in ss[1..];
    }
  }

  lemma {:induction false} FindByAbbrSpec(a: string, ss: seq<State>)
    ensures FindByAbbr(a, ss).Some? ==> FindByAbbr(a, ss).value in ss && Abbr(FindByAbbr(a, ss).value) == a
    ensures FindByAbbr(a, ss).None? ==> forall s :: s in ss ==> Abbr(s) != a
  {
    if ss != [] {
      FindByAbbrSpec(a, ss[1..]);
      assert forall s :: s in ss ==> s == ss[0] || s in ss[1..];
    }
  }

  /** `_state_name_to_abbr().get(n)`: the abbreviation of the state named `n`, if any. */
  function NameToAbbr(n: string): Option<string> {
    match FindByName(n, AllStates())
    case Some(s) => Some(Abbr(s))
    case None => None
  }

  /**
   * `abbr_to_name.get(a)` where `abbr_to_name = {v: k for k, v in
   * _state_name_to_abbr().items()}`: the name of the state abbreviated `a`.
   */
  function AbbrToName(a: string): Option<string> {
    match FindByAbbr(a, AllStates())
    case Some(s) => Some(Name(s))
    case None => None
  }

  /** The lookup finds exactly the vocabulary names, and gives each its own state's abbreviation. */
  lemma NameToAbbrSpec(n: string)
    ensures NameToAbbr(n).Some? <==> exists s :: Name(s) == n
    ensures forall s :: Name(s) == n ==> NameToAbbr(n) == Some(Abbr(s))
  {
    FindByNameSpec(n, AllStates());
    match FindByName(n, AllStates())
    case Some(s) =>
      forall t | Name(t) == n ensures t == s { NameInjective(s, t); }
    case None =>
      forall s ensures Name(s) != n { AllStatesComplete(s); }
  }

  /** The inverted lookup finds exactly the abbreviations, and gives each its own state's name. */
  lemma AbbrToNameSpec(a: string)
    ensures AbbrToName(a).Some? <==> exists s :: Abbr(s) == a
    ensures forall s :: Abbr(s) == a ==> AbbrToName(a) == Some(Name(s))
  {
    FindByAbbrSpec(a, AllStates());
    match FindByAbbr(a, AllStates())
    case Some(s) =>
      forall t | Abbr(t) == a ensures t == s { AbbrInjective(s, t); }
    case None =>
      forall s ensures Abbr(s) != a { AllStatesComplete(s); }
  }

  /** `abbr_to_name.get(a, a)`: the state's name, or the key itself when it is no abbreviation. */
  function NameOrAbbr(a: string): string {
    AbbrToName(a).GetOr(a)
  }

  /**
   * The inverted dictionary really is the inverse: because no two names share
   * an abbreviation, looking up the abbreviation of a name gives the name back,
   * and looking up the name of an abbreviation gives the abbreviation back.
   */
  lemma InverseRoundTrip(n: string, a: string)
    ensures NameToAbbr(n) == Some(a) <==> AbbrToName(a) == Some(n)
  {
    NameToAbbrSpec(n);
    AbbrToNameSpec(a);
    if NameToAbbr(n) == Some(a) {
      var s :| Name(s) == n;
    }
    if AbbrToName(a) == Some(n) {
      var s :| Abbr(s) == a;
    }
  }

  /** The defaulting lookup names a state whose abbreviation is the key, and leaves other keys alone. */
  lemma NameOrAbbrSpec(a: string)
    ensures AbbrToName(a).Some? ==> NameToAbbr(NameOrAbbr(a)) == Some(a)
    ensures AbbrToName(a).None? ==> NameOrAbbr(a) == a
  {
    if AbbrToName(a).Some? {
      InverseRoundTrip(AbbrToName(a).value, a);
    }
  }

  /** Two different names never share an abbreviation. */
  lemma NameToAbbrInjective(n1: string, n2: string)
    requires n1 != n2 && NameToAbbr(n1).Some?
    ensures NameToAbbr(n1) != NameToAbbr(n2)
  {
    NameToAbbrSpec(n1);
    NameToAbbrSpec(n2);
    var s1 :| Name(s1) == n1;
    if NameToAbbr(n2).Some? {
      var s2 :| Name(s2) == n2;
      AbbrInjective(s1, s2);
    }
  }

  /** Aggregate and footnote headers are not in the vocabulary. */
  lemma AggregateNotMapped()
    ensures NameToAbbr("United States") == None
  {
    NameToAbbrSpec("United States");
    forall s ensures Name(s) != "United States" {
      NotUnitedStates(s);
    }
  }


  lemma NotUnitedStates(s: State)
    ensures Name(s) != "United States"
  {
    NameKeyInverse(s);
    assert NameKey("United States") == 89996493;
  }
}
