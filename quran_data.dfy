/**
 * The content index: the static table of the 114 surahs with their verse
 * counts, and the strictly linear order in which a reading cursor advances
 * through the text.
 */
module QuranData {
  import opened Wrappers

  /** One row of the surah table. */
  datatype SurahInfo = SurahInfo(number: int, name: string, verses: int)

  /** A reading cursor (surah, verse). Both are plain integers, as the store keeps them. */
  datatype Position = Position(surah: int, verse: int)

  const SurahCount: int := 114
  const TotalVerses: int := 6236

  /** The first verse of the text, where every new subscriber starts. */
  const Start: Position := Position(1, 1)
  /** The last verse of the last surah. */
  const Terminal: Position := Position(114, 6)

  /** The verse-count column of the surah table; row `i` (counting from 0) is surah `i + 1`. */
  function VersesIn(i: nat): int
    requires i < 114
  {
    match i
    case 0 => 7
    case 1 => 286
    case 2 => 200
    case 3 => 176
    case 4 => 120
    case 5 => 165
    case 6 => 206
    case 7 => 75
    case 8 => 129
    case 9 => 109
    case 10 => 123
    case 11 => 111
    case 12 => 43
    case 13 => 52
    case 14 => 99
    case 15 => 128
    case 16 => 111
    case 17 => 110
    case 18 => 98
    case 19 => 135
    case 20 => 112
    case 21 => 78
    case 22 => 118
    case 23 => 64
    case 24 => 77
    case 25 => 227
    case 26 => 93
    case 27 => 88
    case 28 => 69
    case 29 => 60
    case 30 => 34
    case 31 => 30
    case 32 => 73
    case 33 => 54
    case 34 => 45
    case 35 => 83
    case 36 => 182
    case 37 => 88
    case 38 => 75
    case 39 => 85
    case 40 => 54
    case 41 => 53
    case 42 => 89
    case 43 => 59
    case 44 => 37
    case 45 => 35
    case 46 => 38
    case 47 => 29
    case 48 => 18
    case 49 => 45
    case 50 => 60
    case 51 => 49
    case 52 => 62
    case 53 => 55
    case 54 => 78
    case 55 => 96
    case 56 => 29
    case 57 => 22
    case 58 => 24
    case 59 => 13
    case 60 => 14
    case 61 => 11
    case 62 => 11
    case 63 => 18
    case 64 => 12
    case 65 => 12
    case 66 => 30
    case 67 => 52
    case 68 => 52
    case 69 => 44
    case 70 => 28
    case 71 => 28
    case 72 => 20
    case 73 => 56
    case 74 => 40
    case 75 => 31
    case 76 => 50
    case 77 => 40
    case 78 => 46
    case 79 => 42
    case 80 => 29
    case 81 => 19
    case 82 => 36
    case 83 => 25
    case 84 => 22
    case 85 => 17
    case 86 => 19
    case 87 => 26
    case 88 => 30
    case 89 => 20
    case 90 => 15
    case 91 => 21
    case 92 => 11
    case 93 => 8
    case 94 => 8
    case 95 => 19
    case 96 => 5
    case 97 => 8
    case 98 => 8
    case 99 => 11
    case 100 => 11
    case 101 => 8
    case 102 => 3
    case 103 => 9
    case 104 => 5
    case 105 => 4
    case 106 => 7
    case 107 => 3
    case 108 => 6
    case 109 => 3
    case 110 => 5
    case 111 => 4
    case 112 => 5
    case 113 => 6
  }

  /** The name column of the surah table. */
  function SurahName(i: nat): string
    requires i < 114
  {
    match i
    case 0 => "Al-Fatihah"
    case 1 => "Al-Baqarah"
    case 2 => "Ali 'Imran"
    case 3 => "An-Nisa"
    case 4 => "Al-Ma'idah"
    case 5 => "Al-An'am"
    case 6 => "Al-A'raf"
    case 7 => "Al-Anfal"
    case 8 => "At-Tawbah"
    case 9 => "Yunus"
    case 10 => "Hud"
    case 11 => "Yusuf"
    case 12 => "Ar-Ra'd"
    case 13 => "Ibrahim"
    case 14 => "Al-Hijr"
    case 15 => "An-Nahl"
    case 16 => "Al-Isra"
    case 17 => "Al-Kahf"
    case 18 => "Maryam"
    case 19 => "Taha"
    case 20 => "Al-Anbya"
    case 21 => "Al-Hajj"
    case 22 => "Al-Mu'minun"
    case 23 => "An-Nur"
    case 24 => "Al-Furqan"
    case 25 => "Ash-Shu'ara"
    case 26 => "An-Naml"
    case 27 => "Al-Qasas"
    case 28 => "Al-'Ankabut"
    case 29 => "Ar-Rum"
    case 30 => "Luqman"
    case 31 => "As-Sajdah"
    case 32 => "Al-Ahzab"
    case 33 => "Saba"
    case 34 => "Fatir"
    case 35 => "Ya-Sin"
    case 36 => "As-Saffat"
    case 37 => "Sad"
    case 38 => "Az-Zumar"
    case 39 => "Ghafir"
    case 40 => "Fussilat"
    case 41 => "Ash-Shuraa"
    case 42 => "Az-Zukhruf"
    case 43 => "Ad-Dukhan"
    case 44 => "Al-Jathiyah"
    case 45 => "Al-Ahqaf"
    case 46 => "Muhammad"
    case 47 => "Al-Fath"
    case 48 => "Al-Hujurat"
    case 49 => "Qaf"
    case 50 => "Adh-Dhariyat"
    case 51 => "At-Tur"
    case 52 => "An-Najm"
    case 53 => "Al-Qamar"
    case 54 => "Ar-Rahman"
    case 55 => "Al-Waqi'ah"
    case 56 => "Al-Hadid"
    case 57 => "Al-Mujadila"
    case 58 => "Al-Hashr"
    case 59 => "Al-Mumtahanah"
    case 60 => "As-Saf"
    case 61 => "Al-Jumu'ah"
    case 62 => "Al-Munafiqun"
    case 63 => "At-Taghabun"
    case 64 => "At-Talaq"
    case 65 => "At-Tahrim"
    case 66 => "Al-Mulk"
    case 67 => "Al-Qalam"
    case 68 => "Al-Haqqah"
    case 69 => "Al-Ma'arij"
    case 70 => "Nuh"
    case 71 => "Al-Jinn"
    case 72 => "Al-Muzzammil"
    case 73 => "Al-Muddaththir"
    case 74 => "Al-Qiyamah"
    case 75 => "Al-Insan"
    case 76 => "Al-Mursalat"
    case 77 => "An-Naba"
    case 78 => "An-Nazi'at"
    case 79 => "Abasa"
    case 80 => "At-Takwir"
    case 81 => "Al-Infitar"
    case 82 => "Al-Mutaffifin"
    case 83 => "Al-Inshiqaq"
    case 84 => "Al-Buruj"
    case 85 => "At-Tariq"
    case 86 => "Al-A'la"
    case 87 => "Al-Ghashiyah"
    case 88 => "Al-Fajr"
    case 89 => "Al-Balad"
    case 90 => "Ash-Shams"
    case 91 => "Al-Layl"
    case 92 => "Ad-Duhaa"
    case 93 => "Ash-Sharh"
    case 94 => "At-Tin"
    case 95 => "Al-'Alaq"
    case 96 => "Al-Qadr"
    case 97 => "Al-Bayyinah"
    case 98 => "Az-Zalzalah"
    case 99 => "Al-'Adiyat"
    case 100 => "Al-Qari'ah"
    case 101 => "At-Takathur"
    case 102 => "Al-'Asr"
    case 103 => "Al-Humazah"
    case 104 => "Al-Fil"
    case 105 => "Quraysh"
    case 106 => "Al-Ma'un"
    case 107 => "Al-Kawthar"
    case 108 => "Al-Kafirun"
    case 109 => "An-Nasr"
    case 110 => "Al-Masad"
    case 111 => "Al-Ikhlas"
    case 112 => "Al-Falaq"
    case 113 => "An-Nas"
  }

  // SurahEntry reads the two columns through a recursive halving lookup
  // rather than through the 114-case matches themselves: a recursive
  // function is unfolded only as far as a proof needs, whereas the matches
  // would be expanded at every use of a surah's entry and put the proofs
  // over cursors out of resource. SeekFindsCount and SeekFindsName show
  // that the lookup finds exactly the table row.

  /** The number of table rows a lookup at level `d` covers. */
  function Width(d: nat): nat
    requires d <= 7
  {
    match d
    case 0 => 1
    case 1 => 2
    case 2 => 4
    case 3 => 8
    case 4 => 16
    case 5 => 32
    case 6 => 64
    case 7 => 128
  }

  /** Row `i` of the verse-count column, found by halving the range of Width(d) rows that starts at `lo`. */
  function SeekCount(i: int, lo: int, d: nat): int
    requires d <= 7 && 0 <= lo <= i < 114 && i < lo + Width(d)
    decreases d, i
  {
    if d == 0 then VersesIn(lo)
    else if i < lo + Width(d - 1) then SeekCount(i, lo, d - 1)
    else SeekCount(i, lo + Width(d - 1), d - 1)
  }

  /** Row `i` of the name column, found the same way. */
  function SeekName(i: int, lo: int, d: nat): string
    requires d <= 7 && 0 <= lo <= i < 114 && i < lo + Width(d)
    decreases d, i
  {
    if d == 0 then SurahName(lo)
    else if i < lo + Width(d - 1) then SeekName(i, lo, d - 1)
    else SeekName(i, lo + Width(d - 1), d - 1)
  }

  /** Every surah has at least one verse. */
  lemma VersesPositive(i: nat)
    requires i < 114
    ensures VersesIn(i) > 0
  {
  }

  /** The lookup finds row `i` of the verse-count column. */
  lemma {:induction false} SeekFindsCount(i: int, lo: int, d: nat)
    requires d <= 7 && 0 <= lo <= i < 114 && i < lo + Width(d)
    ensures SeekCount(i, lo, d) == VersesIn(i)
    decreases d, i
  {
    if d == 0 {
      assert i == lo;
    } else if i < lo + Width(d - 1) {
      SeekFindsCount(i, lo, d - 1);
    } else {
      SeekFindsCount(i, lo + Width(d - 1), d - 1);
    }
  }

  /** The lookup finds row `i` of the name column. */
  lemma {:induction false} SeekFindsName(i: int, lo: int, d: nat)
    requires d <= 7 && 0 <= lo <= i < 114 && i < lo + Width(d)
    ensures SeekName(i, lo, d) == SurahName(i)
    decreases d, i
  {
    if d == 0 {
      assert i == lo;
    } else if i < lo + Width(d - 1) {
      SeekFindsName(i, lo, d - 1);
    } else {
      SeekFindsName(i, lo + Width(d - 1), d - 1);
    }
  }

  /** Row `i` of the surah table: surah number `i + 1`, its name and its verse count. */
  function SurahEntry(i: nat): (r: SurahInfo)
    requires i < 114
    ensures r.number == i + 1 && r.verses > 0
  {
    SeekFindsCount(i, 0, 7);
    VersesPositive(i);
    SurahInfo(i + 1, SeekName(i, 0, 7), SeekCount(i, 0, 7))
  }

  /** The verse count of an existing surah. */
  function VerseCount(s: int): (n: int)
    requires 1 <= s <= SurahCount
    ensures n > 0
  {
    SurahEntry(s - 1).verses
  }

  /** The table lookup agrees with the table's columns. */
  lemma EntryIsRow(i: nat)
    requires i < 114
    ensures SurahEntry(i) == SurahInfo(i + 1, SurahName(i), VersesIn(i))
    ensures VerseCount(i + 1) == VersesIn(i)
  {
    SeekFindsCount(i, 0, 7);
    SeekFindsName(i, 0, 7);
  }

  /** The table entry of surah `n`, present exactly for 1 <= n <= 114. */
  function GetSurahInfo(n: int): (r: Option<SurahInfo>)
    ensures r.Some? <==> 1 <= n <= SurahCount
    ensures r.Some? ==> r.value.number == n && r.value.verses == VerseCount(n) && r.value.verses > 0
  {
    if 1 <= n <= SurahCount then Some(SurahEntry(n - 1)) else None
  }

  /** A position that names an existing verse. */
  predicate ValidPosition(p: Position)
  {
    1 <= p.surah <= SurahCount && 1 <= p.verse <= VerseCount(p.surah)
  }

  /** Strict lexicographic order on positions. */
  predicate Before(p: Position, q: Position)
  {
    p.surah < q.surah || (p.surah == q.surah && p.verse < q.verse)
  }

  /**
   * The position after (s, v), or None when the surah does not exist or
   * (s, v) is at or past the last verse of the last surah. The verse number
   * itself is not checked against the surah's length.
   */
  function GetNextVerse(s: int, v: int): (r: Option<Position>)
    ensures r.Some? ==> 1 <= s <= SurahCount
    ensures r.Some? ==> 1 <= r.value.surah <= SurahCount && Before(Position(s, v), r.value)
  {
    var info := GetSurahInfo(s);
    if info.None? then None
    else if v < info.value.verses then Some(Position(s, v + 1))
    else if s < SurahCount then Some(Position(s + 1, 1))
    else None
  }

  /** GetNextVerse on a position value. */
  function Next(p: Position): Option<Position>
  {
    GetNextVerse(p.surah, p.verse)
  }

  /** The three ways GetNextVerse can answer, and when each applies. */
  lemma NextVerseCases(s: int, v: int)
    ensures !(1 <= s <= SurahCount) ==> GetNextVerse(s, v) == None
    ensures 1 <= s <= SurahCount && v < VerseCount(s) ==> GetNextVerse(s, v) == Some(Position(s, v + 1))
    ensures 1 <= s < SurahCount && v >= VerseCount(s) ==> GetNextVerse(s, v) == Some(Position(s + 1, 1))
    ensures s == SurahCount && v >= VerseCount(s) ==> GetNextVerse(s, v) == None
  {
  }

  /** The number of verses in surahs 1 .. k. */
  function PrefixVerses(k: int): int
    requires 0 <= k <= SurahCount
  {
    if k == 0 then 0 else PrefixVerses(k - 1) + VerseCount(k)
  }

  /** The 0-based place of a position in reading order. */
  function Ordinal(p: Position): int
    requires 1 <= p.surah <= SurahCount
  {
    PrefixVerses(p.surah - 1) + p.verse - 1
  }

  /** The running total of the verse-count column over its first k rows. */
  function ColumnSum(k: int): int
    requires 0 <= k <= 114
  {
    if k == 0 then 0 else ColumnSum(k - 1) + VersesIn(k - 1)
  }

  /** The running totals of the verse-count column up to row 19. */
  lemma ColumnSumThrough19()
    ensures ColumnSum(19) == 2348
  {
    assert ColumnSum(1) == 7;
    assert ColumnSum(2) == 293;
    assert ColumnSum(3) == 493;
    assert ColumnSum(4) == 669;
    assert ColumnSum(5) == 789;
    assert ColumnSum(6) == 954;
    assert ColumnSum(7) == 1160;
    assert ColumnSum(8) == 1235;
    assert ColumnSum(9) == 1364;
    assert ColumnSum(10) == 1473;
    assert ColumnSum(11) == 1596;
    assert ColumnSum(12) == 1707;
    assert ColumnSum(13) == 1750;
    assert ColumnSum(14) == 1802;
    assert ColumnSum(15) == 1901;
    assert ColumnSum(16) == 2029;
    assert ColumnSum(17) == 2140;
    assert ColumnSum(18) == 2250;
    assert ColumnSum(19) == 2348;
  }

  /** The running totals of the verse-count column up to row 38. */
  lemma ColumnSumThrough38()
    ensures ColumnSum(38) == 4058
  {
    ColumnSumThrough19();
    assert ColumnSum(20) == 2483;
    assert ColumnSum(21) == 2595;
    assert ColumnSum(22) == 2673;
    assert ColumnSum(23) == 2791;
    assert ColumnSum(24) == 2855;
    assert ColumnSum(25) == 2932;
    assert ColumnSum(26) == 3159;
    assert ColumnSum(27) == 3252;
    assert ColumnSum(28) == 3340;
    assert ColumnSum(29) == 3409;
    assert ColumnSum(30) == 3469;
    assert ColumnSum(31) == 3503;
    assert ColumnSum(32) == 3533;
    assert ColumnSum(33) == 3606;
    assert ColumnSum(34) == 3660;
    assert ColumnSum(35) == 3705;
    assert ColumnSum(36) == 3788;
    assert ColumnSum(37) == 3970;
    assert ColumnSum(38) == 4058;
  }

  /** The running totals of the verse-count column up to row 57. */
  lemma ColumnSumThrough57()
    ensures ColumnSum(57) == 5104
  {
    ColumnSumThrough38();
    assert ColumnSum(39) == 4133;
    assert ColumnSum(40) == 4218;
    assert ColumnSum(41) == 4272;
    assert ColumnSum(42) == 4325;
    assert ColumnSum(43) == 4414;
    assert ColumnSum(44) == 4473;
    assert ColumnSum(45) == 4510;
    assert ColumnSum(46) == 4545;
    assert ColumnSum(47) == 4583;
    assert ColumnSum(48) == 4612;
    assert ColumnSum(49) == 4630;
    assert ColumnSum(50) == 4675;
    assert ColumnSum(51) == 4735;
    assert ColumnSum(52) == 4784;
    assert ColumnSum(53) == 4846;
    assert ColumnSum(54) == 4901;
    assert ColumnSum(55) == 4979;
    assert ColumnSum(56) == 5075;
    assert ColumnSum(57) == 5104;
  }

  /** The running totals of the verse-count column up to row 76. */
  lemma ColumnSumThrough76()
    ensures ColumnSum(76) == 5622
  {
    ColumnSumThrough57();
    assert ColumnSum(58) == 5126;
    assert ColumnSum(59) == 5150;
    assert ColumnSum(60) == 5163;
    assert ColumnSum(61) == 5177;
    assert ColumnSum(62) == 5188;
    assert ColumnSum(63) == 5199;
    assert ColumnSum(64) == 5217;
    assert ColumnSum(65) == 5229;
    assert ColumnSum(66) == 5241;
    assert ColumnSum(67) == 5271;
    assert ColumnSum(68) == 5323;
    assert ColumnSum(69) == 5375;
    assert ColumnSum(70) == 5419;
    assert ColumnSum(71) == 5447;
    assert ColumnSum(72) == 5475;
    assert ColumnSum(73) == 5495;
    assert ColumnSum(74) == 5551;
    assert ColumnSum(75) == 5591;
    assert ColumnSum(76) == 5622;
  }

  /** The running totals of the verse-count column up to row 95. */
  lemma ColumnSumThrough95()
    ensures ColumnSum(95) == 6106
  {
    ColumnSumThrough76();
    assert ColumnSum(77) == 5672;
    assert ColumnSum(78) == 5712;
    assert ColumnSum(79) == 5758;
    assert ColumnSum(80) == 5800;
    assert ColumnSum(81) == 5829;
    assert ColumnSum(82) == 5848;
    assert ColumnSum(83) == 5884;
    assert ColumnSum(84) == 5909;
    assert ColumnSum(85) == 5931;
    assert ColumnSum(86) == 5948;
    assert ColumnSum(87) == 5967;
    assert ColumnSum(88) == 5993;
    assert ColumnSum(89) == 6023;
    assert ColumnSum(90) == 6043;
    assert ColumnSum(91) == 6058;
    assert ColumnSum(92) == 6079;
    assert ColumnSum(93) == 6090;
    assert ColumnSum(94) == 6098;
    assert ColumnSum(95) == 6106;
  }

  /** The running totals of the verse-count column up to row 114. */
  lemma ColumnSumThrough114()
    ensures ColumnSum(113) == 6230
    ensures ColumnSum(114) == 6236
  {
    ColumnSumThrough95();
    assert ColumnSum(96) == 6125;
    assert ColumnSum(97) == 6130;
    assert ColumnSum(98) == 6138;
    assert ColumnSum(99) == 6146;
    assert ColumnSum(100) == 6157;
    assert ColumnSum(101) == 6168;
    assert ColumnSum(102) == 6176;
    assert ColumnSum(103) == 6179;
    assert ColumnSum(104) == 6188;
    assert ColumnSum(105) == 6193;
    assert ColumnSum(106) == 6197;
    assert ColumnSum(107) == 6204;
    assert ColumnSum(108) == 6207;
    assert ColumnSum(109) == 6213;
    assert ColumnSum(110) == 6216;
    assert ColumnSum(111) == 6221;
    assert ColumnSum(112) == 6225;
    assert ColumnSum(113) == 6230;
    assert ColumnSum(114) == 6236;
  }

  /** The running total of the table is the running total of its verse column. */
  lemma {:induction false} PrefixIsColumnSum(k: int)
    requires 0 <= k <= SurahCount
    ensures PrefixVerses(k) == ColumnSum(k)
  {
    if k > 0 {
      PrefixIsColumnSum(k - 1);
      EntryIsRow(k - 1);
    }
  }


  /** The sum of the verse counts of all rows of the table. */
  function GetTotalVerses(): (total: int)
    ensures total == TotalVerses
  {
    ColumnSumThrough114();
    PrefixIsColumnSum(SurahCount);
    PrefixVerses(SurahCount)
  }

  /** Each surah adds at least one verse to the running total. */
  lemma {:induction false} PrefixGrows(j: int, k: int)
    requires 0 <= j <= k <= SurahCount
    ensures PrefixVerses(j) + (k - j) <= PrefixVerses(k)
    decreases k - j
  {
    if j < k {
      PrefixGrows(j, k - 1);
    }
  }

  /** The last surah has six verses. */
  lemma LastSurahLength()
    ensures VerseCount(SurahCount) == 6
  {
    EntryIsRow(SurahCount - 1);
  }

  /** The last verse is at place 6235: the first 113 surahs hold 6230 verses and the last holds 6. */
  lemma TerminalOrdinal()
    ensures VerseCount(SurahCount) == 6
    ensures PrefixVerses(SurahCount - 1) == TotalVerses - 6
    ensures ValidPosition(Terminal) && Ordinal(Terminal) == TotalVerses - 1
  {
    ColumnSumThrough114();
    PrefixIsColumnSum(SurahCount - 1);
    LastSurahLength();
  }

  /** A valid position's place lies within the places of its own surah. */
  lemma PlaceWithinSurah(p: Position)
    requires ValidPosition(p)
    ensures PrefixVerses(p.surah - 1) <= Ordinal(p) < PrefixVerses(p.surah)
  {
  }

  /** Every valid position has its place in 0 .. 6235. */
  lemma OrdinalRange(p: Position)
    requires ValidPosition(p)
    ensures 0 <= Ordinal(p) < TotalVerses
  {
    PlaceWithinSurah(p);
    PrefixGrows(0, p.surah - 1);
    TerminalOrdinal();
    if p.surah < SurahCount {
      PrefixGrows(p.surah, SurahCount - 1);
    }
  }

  /** On valid positions, reading order is the order of places, and the place determines the position. */
  lemma OrdinalMonotone(p: Position, q: Position)
    requires ValidPosition(p) && ValidPosition(q)
    ensures Before(p, q) <==> Ordinal(p) < Ordinal(q)
    ensures Ordinal(p) == Ordinal(q) <==> p == q
  {
    PlaceWithinSurah(p);
    PlaceWithinSurah(q);
    if p.surah < q.surah {
      PrefixGrows(p.surah, q.surah - 1);
    } else if q.surah < p.surah {
      PrefixGrows(q.surah, p.surah - 1);
    }
  }

  /** At the last verse of a surah other than the last, the successor is the next surah's first verse. */
  lemma NextAcrossSurahs(p: Position)
    requires ValidPosition(p) && p.verse == VerseCount(p.surah) && p.surah < SurahCount
    ensures Next(p) == Some(Position(p.surah + 1, 1))
    ensures ValidPosition(Next(p).value) && Ordinal(Next(p).value) == Ordinal(p) + 1
  {
    NextVerseCases(p.surah, p.verse);
    assert Ordinal(Position(p.surah + 1, 1)) == PrefixVerses(p.surah);
  }

  /**
   * From a valid position, GetNextVerse gives a valid position exactly one
   * place later, and gives None only at the terminal verse.
   */
  lemma NextOfValid(p: Position)
    requires ValidPosition(p)
    ensures Next(p).None? <==> p == Terminal
    ensures Next(p).Some? ==>
      ValidPosition(Next(p).value) && Before(p, Next(p).value) && Ordinal(Next(p).value) == Ordinal(p) + 1
  {
    if p.verse < VerseCount(p.surah) {
      NextVerseCases(p.surah, p.verse);
    } else if p.surah < SurahCount {
      NextAcrossSurahs(p);
    } else {
      LastSurahLength();
      NextVerseCases(p.surah, p.verse);
    }
  }

  /** The position reached after `n` advances from `p`, or None once the end has been passed. */
  function AdvanceBy(p: Position, n: nat): Option<Position>
  {
    if n == 0 then Some(p)
    else match AdvanceBy(p, n - 1)
      case None => None
      case Some(q) => Next(q)
  }

  /** After k < 6236 advances from (1, 1) the cursor is the valid position at place k. */
  lemma {:induction false} WalkFromStart(k: nat)
    requires k < TotalVerses
    ensures AdvanceBy(Start, k).Some?
    ensures ValidPosition(AdvanceBy(Start, k).value) && Ordinal(AdvanceBy(Start, k).value) == k
  {
    if k > 0 {
      WalkFromStart(k - 1);
      var q := AdvanceBy(Start, k - 1).value;
      TerminalOrdinal();
      NextOfValid(q);
    }
  }

  /** Advancing from (1, 1) reaches every valid position, each after as many steps as its place. */
  lemma WalkVisitsEveryVerse(p: Position)
    requires ValidPosition(p)
    ensures Ordinal(p) >= 0 && AdvanceBy(Start, Ordinal(p)) == Some(p)
  {
    OrdinalRange(p);
    WalkFromStart(Ordinal(p));
    OrdinalMonotone(AdvanceBy(Start, Ordinal(p)).value, p);
  }

  /** Exactly 6235 advances lead from (1, 1) to (114, 6); one more gives None. */
  lemma WalkLength()
    ensures AdvanceBy(Start, TotalVerses - 1) == Some(Terminal)
    ensures AdvanceBy(Start, TotalVerses) == None
  {
    TerminalOrdinal();
    WalkVisitsEveryVerse(Terminal);
    NextOfValid(Terminal);
  }
}
