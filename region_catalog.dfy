/**
 * The fixed catalogue of metropolitan regions and their five representative
 * sub-regions (`SubRegionsData`), and the rule that classifies a query as a
 * WIDE search (several search centres) or a NARROW one (a single centre).
 */
module RegionCatalog {
  import opened Wrappers
  import opened Text

  datatype SearchType = WIDE | NARROW

  /** The keys of the region table, in declaration order (a Kotlin `mapOf` iterates in insertion order). */
  const WideRegionKeys: seq<string> := [
    "부산", "부산광역시", "서울", "서울특별시", "제주", "제주도", "대구", "대구광역시",
    "광주", "광주광역시", "인천", "인천광역시", "대전", "대전광역시", "울산", "울산광역시",
    "경기", "경기도", "수원", "강릉", "속초", "춘천", "전주", "여수",
    "순천", "경주", "통영", "거제", "천안", "청주"
  ]

  /** The region table: each metropolitan region and its five representative sub-regions. */
  const WideRegionMap: map<string, seq<string>> := map[
    "부산" := ["해운대", "광안리", "서면", "남포동", "태종대"],
    "부산광역시" := ["해운대", "광안리", "서면", "남포동", "태종대"],
    "서울" := ["강남", "홍대", "명동", "이태원", "잠실"],
    "서울특별시" := ["강남", "홍대", "명동", "이태원", "잠실"],
    "제주" := ["제주시", "서귀포", "성산", "애월", "중문"],
    "제주도" := ["제주시", "서귀포", "성산", "애월", "중문"],
    "대구" := ["동성로", "수성못", "안지랑", "김광석길", "서문시장"],
    "대구광역시" := ["동성로", "수성못", "안지랑", "김광석길", "서문시장"],
    "광주" := ["양림동", "충장로", "송정", "첨단", "무등산"],
    "광주광역시" := ["양림동", "충장로", "송정", "첨단", "무등산"],
    "인천" := ["차이나타운", "월미도", "송도", "강화", "을왕리"],
    "인천광역시" := ["차이나타운", "월미도", "송도", "강화", "을왕리"],
    "대전" := ["유성", "둔산", "대전역", "한밭수목원", "계룡산"],
    "대전광역시" := ["유성", "둔산", "대전역", "한밭수목원", "계룡산"],
    "울산" := ["태화강", "간절곶", "대왕암공원", "울산대공원", "장생포"],
    "울산광역시" := ["태화강", "간절곶", "대왕암공원", "울산대공원", "장생포"],
    "경기" := ["수원", "용인", "성남", "고양", "부천"],
    "경기도" := ["수원", "용인", "성남", "고양", "부천"],
    "수원" := ["수원역", "행궁동", "광교", "영통", "화성"],
    "강릉" := ["경포대", "안목해변", "주문진", "정동진", "강릉역"],
    "속초" := ["속초해수욕장", "청초호", "설악산", "속초항", "영랑호"],
    "춘천" := ["남이섬", "소양강", "춘천역", "춘천명동", "의암호"],
    "전주" := ["한옥마을", "전주역", "덕진공원", "남부시장", "동문거리"],
    "여수" := ["여수엑스포", "오동도", "돌산", "여수항", "향일암"],
    "순천" := ["순천만", "순천역", "낙안읍성", "순천만정원", "드라마세트장"],
    "경주" := ["불국사", "첨성대", "대릉원", "동궁", "경주역"],
    "통영" := ["동피랑", "케이블카", "통영항", "욕지도", "통영중앙시장"],
    "거제" := ["외도", "바람의언덕", "학동흑진주몽돌해변", "거제도포로수용소", "구조라"],
    "천안" := ["독립기념관", "천안역", "천안삼거리", "병천순대", "아라리오갤러리"],
    "청주" := ["청주역", "상당산성", "청주고인쇄박물관", "무심천", "수암골"]
  ]

  /**
   * Keywords that mark a query as a specific neighbourhood, grouped as the
   * source groups them. "송정" is listed under both Busan and Gwangju, as in
   * the source; only whether some keyword occurs matters, so the repeat is
   * harmless.
   */
  const DetailedRegionKeywords: seq<string> :=
    BusanKeywords + SeoulKeywords + JejuKeywords + GwangjuKeywords + DaeguKeywords + OtherKeywords

  const BusanKeywords: seq<string> := [
    "해운대", "광안리", "서면", "남포동", "태종대", "송정", "기장", "영도",
    "감천", "자갈치", "범일동", "중앙동", "부산역", "부산대"
  ]
  const SeoulKeywords: seq<string> := [
    "강남", "홍대", "명동", "이태원", "잠실", "신촌", "압구정", "삼청동",
    "인사동", "북촌", "종로", "동대문", "신림", "건대", "노원", "강북",
    "마포", "여의도", "용산", "성수", "연남동", "망원동", "서촌"
  ]
  const JejuKeywords: seq<string> := [
    "제주시", "서귀포", "성산", "애월", "중문", "협재", "한림", "표선",
    "우도", "마라도", "함덕", "김녕"
  ]
  const GwangjuKeywords: seq<string> := ["양림동", "충장로", "송정", "첨단", "무등산", "국립아시아문화전당"]
  const DaeguKeywords: seq<string> := ["동성로", "수성못", "안지랑", "김광석길", "서문시장", "팔공산"]
  const OtherKeywords: seq<string> := [
    "경포대", "안목", "주문진", "정동진", "남이섬", "소양강",
    "한옥마을", "오동도", "엑스포", "불국사", "첨성대", "동피랑"
  ]

  /** The delimiters `determineSearchType` splits on. */
  const Delimiters: set<char> := {' ', '/', ','}

  /** The key list and the table agree: every listed key is in the table and nothing else is. */
  lemma KeysMatchTable()
    ensures forall k :: k in WideRegionMap <==> k in WideRegionKeys
  {
  }

  /** Each region of the table lists exactly five sub-regions. */
  lemma EveryEntryHasFiveSubRegions()
    ensures forall k | k in WideRegionMap :: |WideRegionMap[k]| == 5
  {
  }

  /** `getSubRegions`: the sub-regions of the trimmed query, if it is a table key. */
  function GetSubRegions(region: string): (r: Option<seq<string>>)
    ensures r.Some? <==> Trim(region) in WideRegionKeys
    ensures r.Some? ==> |r.value| == 5
    ensures r.Some? ==> Trim(region) in WideRegionMap && r.value == WideRegionMap[Trim(region)]
  {
    KeysMatchTable();
    EveryEntryHasFiveSubRegions();
    var normalized := Trim(region);
    if normalized in WideRegionMap then Some(WideRegionMap[normalized]) else None
  }

  /** Surrounding whitespace does not change the lookup: the query is trimmed first. */
  lemma GetSubRegionsIgnoresPadding(region: string)
    ensures GetSubRegions(region) == GetSubRegions(Trim(region))
  {
    TrimProperties(region);
  }

  /** `containsDetailedRegionKeyword`: some keyword occurs in the query. */
  function ContainsDetailedRegionKeyword(searchQuery: string): (r: bool)
    ensures r <==> exists k <- DetailedRegionKeywords :: Contains(searchQuery, k)
  {
    AnyContained(searchQuery, DetailedRegionKeywords)
  }

  function AnyContained(q: string, ks: seq<string>): (r: bool)
    ensures r <==> exists k <- ks :: Contains(q, k)
  {
    if ks == [] then false
    else
      var r := Contains(q, ks[0]) || AnyContained(q, ks[1..]);
      assert r ==> exists k <- ks :: Contains(q, k) by {
        if Contains(q, ks[0]) {
          assert ks[0] in ks;
        } else if r {
          var k :| k in ks[1..] && Contains(q, k);
          assert k in ks;
        }
      }
      assert (exists k <- ks :: Contains(q, k)) ==> r by {
        if exists k <- ks :: Contains(q, k) {
          var k :| k in ks && Contains(q, k);
          var i :| 0 <= i < |ks| && ks[i] == k;
          if i > 0 {
            assert ks[1..][i - 1] == k;
          }
        }
      }
      r
  }

  /** The query holds one of the delimiters. */
  predicate HasDelimiter(t: string) {
    exists i :: 0 <= i < |t| && t[i] in Delimiters
  }

  /**
   * `determineSearchType`: on the trimmed query, a keyword hit or a
   * delimiter means NARROW; otherwise a table key means WIDE; anything else
   * is NARROW.
   */
  function DetermineSearchType(searchQuery: string): (r: SearchType)
    ensures r == WIDE <==>
      && !ContainsDetailedRegionKeyword(Trim(searchQuery))
      && !HasDelimiter(Trim(searchQuery))
      && Trim(searchQuery) in WideRegionKeys
  {
    var normalized := Trim(searchQuery);
    CountInPositive(normalized, Delimiters);
    TrimProperties(searchQuery);
    if ContainsDetailedRegionKeyword(normalized) then NARROW
    else if |Split(normalized, Delimiters)| >= 2 then NARROW
    else if GetSubRegions(normalized).Some? then WIDE
    else NARROW
  }

  /** A WIDE classification always finds sub-regions to search. */
  lemma WideHasSubRegions(searchQuery: string)
    requires DetermineSearchType(searchQuery) == WIDE
    ensures GetSubRegions(searchQuery).Some?
  {
  }

  /** A query naming two places ("부산 해운대", "서울/강남") is always NARROW. */
  lemma DelimitedIsNarrow(searchQuery: string)
    requires HasDelimiter(Trim(searchQuery))
    ensures DetermineSearchType(searchQuery) == NARROW
  {
  }

  /** Any query that starts with a neighbourhood keyword is NARROW, whatever follows it. */
  lemma KeywordQueryIsNarrow(k: string, rest: string)
    requires k in DetailedRegionKeywords
    requires k != [] && !IsWhitespace(k[0]) && !IsWhitespace(k[|k| - 1])
    requires rest == [] || !IsWhitespace(rest[|rest| - 1])
    ensures DetermineSearchType(k + rest) == NARROW
  {
    TrimOfKeywordStart(k, rest);
    OccursAtStart(k, rest);
    KeywordContained(k + rest, k, DetailedRegionKeywords);
    KeywordMeansNarrow(k + rest);
  }

  lemma KeywordContained(q: string, k: string, ks: seq<string>)
    requires k in ks && OccursAt(q, k, 0)
    ensures AnyContained(q, ks)
  {
  }

  /** "강남" is both a district of the "서울" entry and a keyword, and the keyword wins. */
  lemma GangnamIsNarrow(rest: string)
    requires rest == [] || !IsWhitespace(rest[|rest| - 1])
    ensures DetermineSearchType("강남" + rest) == NARROW
    ensures "강남" in WideRegionMap["서울"]
  {
    GangnamIsKeyword();
    GangnamIsSeoulDistrict();
    KeywordQueryIsNarrow("강남", rest);
  }

  lemma GangnamIsKeyword()
    ensures "강남" in DetailedRegionKeywords
  {
    assert SeoulKeywords[0] == "강남";
  }

  lemma GangnamIsSeoulDistrict()
    ensures "강남" in WideRegionMap["서울"]
  {
  }

  /** The last letter of a contained keyword occurs in the query. */
  lemma ContainedLastLetter(q: string, k: string)
    requires k != [] && Contains(q, k)
    ensures k[|k| - 1] in q
  {
    var i :| OccursAt(q, k, i);
    assert q[i..i + |k|][|k| - 1] == q[i + |k| - 1];
  }

  /**
   * A Hangul table key classifies WIDE when it shares no letter with a set
   * that holds the last letter of every keyword.
   */
  lemma KeyIsWide(q: string, ends: set<char>)
    requires q in WideRegionKeys && q != []
    requires forall c <- q :: '가' <= c <= '힣' && c !in ends
    requires EndsWithin(DetailedRegionKeywords, ends)
    ensures DetermineSearchType(q) == WIDE
  {
    HangulIsClean(q);
    NoKeywordInside(q, DetailedRegionKeywords, ends);
  }

  /** A Hangul-only word is its own trim and holds no delimiter. */
  lemma HangulIsClean(q: string)
    requires q != []
    requires forall c <- q :: '가' <= c <= '힣'
    ensures Trim(q) == q && !HasDelimiter(q)
  {
    assert q[0] in q && q[|q| - 1] in q;
    assert forall i | 0 <= i < |q| :: q[i] in q;
    TrimStartOfClean(q);
  }

  /** No keyword occurs in a query holding none of the keywords' last letters. */
  lemma NoKeywordInside(q: string, ks: seq<string>, ends: set<char>)
    requires EndsWithin(ks, ends)
    requires forall c <- q :: c !in ends
    ensures !AnyContained(q, ks)
  {
    forall k <- ks
      ensures !Contains(q, k)
    {
      var i :| 0 <= i < |ks| && ks[i] == k;
      if Contains(q, k) {
        ContainedLastLetter(q, k);
      }
    }
  }

  /** Every word of `ks` is non-empty and ends in a letter of `ends`. */
  predicate EndsWithin(ks: seq<string>, ends: set<char>) {
    forall i | 0 <= i < |ks| :: ks[i] != [] && ks[i][|ks[i]| - 1] in ends
  }

  /** The last letters of all keywords. */
  const KeywordEndings: set<char> := {'강', '길', '남', '녕', '단', '당', '대', '덕', '도', '동', '랑', '로', '리', '림', '면', '목', '못', '문', '북', '사', '산', '선', '섬', '수', '시', '실', '역', '원', '월', '을', '장', '재', '정', '진', '천', '촌', '치', '포'}

  /** Every keyword is non-empty and ends in one of `KeywordEndings`. */
  lemma KeywordEndingsCover()
    ensures EndsWithin(DetailedRegionKeywords, KeywordEndings)
  {
    BusanEndings();
    SeoulEndings();
    JejuEndings();
    GwangjuEndings();
    DaeguEndings();
    OtherEndings();
    var ks := BusanKeywords;
    EndingsOfConcat(ks, SeoulKeywords, KeywordEndings);
    ks := ks + SeoulKeywords;
    EndingsOfConcat(ks, JejuKeywords, KeywordEndings);
    ks := ks + JejuKeywords;
    EndingsOfConcat(ks, GwangjuKeywords, KeywordEndings);
    ks := ks + GwangjuKeywords;
    EndingsOfConcat(ks, DaeguKeywords, KeywordEndings);
    ks := ks + DaeguKeywords;
    EndingsOfConcat(ks, OtherKeywords, KeywordEndings);
    ks := ks + OtherKeywords;
    assert ks == DetailedRegionKeywords;
  }

  lemma EndingsOfConcat(a: seq<string>, b: seq<string>, ends: set<char>)
    requires EndsWithin(a, ends) && EndsWithin(b, ends)
    ensures EndsWithin(a + b, ends)
  {
    forall i | 0 <= i < |a + b|
      ensures (a + b)[i] != [] && (a + b)[i][|(a + b)[i]| - 1] in ends
    {
      if i >= |a| {
        assert (a + b)[i] == b[i - |a|];
      }
    }
  }

  lemma BusanEndings()
    ensures EndsWithin(BusanKeywords, KeywordEndings)
  {
  }

  lemma SeoulEndings()
    ensures EndsWithin(SeoulKeywords, KeywordEndings)
  {
  }

  lemma JejuEndings()
    ensures EndsWithin(JejuKeywords, KeywordEndings)
  {
  }

  lemma GwangjuEndings()
    ensures EndsWithin(GwangjuKeywords, KeywordEndings)
  {
  }

  lemma DaeguEndings()
    ensures EndsWithin(DaeguKeywords, KeywordEndings)
  {
  }

  lemma OtherEndings()
    ensures EndsWithin(OtherKeywords, KeywordEndings)
  {
  }

  /** The table keys none of whose letters ends a keyword. */
  const LetterCleanKeys: seq<string> := ["서울", "광주", "제주", "경기", "속초", "전주", "경주", "통영", "거제", "청주"]

  /** Each of those ten keys classifies WIDE. */
  lemma LetterCleanKeysAreWide()
    ensures forall q <- LetterCleanKeys :: DetermineSearchType(q) == WIDE
  {
    KeywordEndingsCover();
    LetterCleanKeysAreKeys();
    forall q <- LetterCleanKeys
      ensures DetermineSearchType(q) == WIDE
    {
      LetterCleanLetters(q);
      KeyIsWide(q, KeywordEndings);
    }
  }

  lemma LetterCleanKeysAreKeys()
    ensures forall q <- LetterCleanKeys :: q in WideRegionKeys && q != []
  {
  }

  lemma LetterCleanLetters(q: string)
    requires q in LetterCleanKeys
    ensures forall c <- q :: '가' <= c <= '힣' && c !in KeywordEndings
  {
    LetterCleanSpelling(q);
    CleanLettersAvoidEndings();
  }

  /** The letters the ten keys are spelt with. */
  const CleanLetters: set<char> := {'서', '울', '광', '주', '제', '경', '기', '속', '초', '전', '통', '영', '거', '청'}

  lemma LetterCleanSpelling(q: string)
    requires q in LetterCleanKeys
    ensures forall c <- q :: c in CleanLetters
  {
  }

  lemma CleanLettersAvoidEndings()
    ensures forall c <- CleanLetters :: '가' <= c <= '힣' && c !in KeywordEndings
  {
  }

  lemma OccursAtStart(k: string, rest: string)
    ensures OccursAt(k + rest, k, 0)
  {
    assert (k + rest)[0..|k|] == k;
  }

  lemma TrimOfKeywordStart(k: string, rest: string)
    requires k != [] && !IsWhitespace(k[0]) && !IsWhitespace(k[|k| - 1])
    requires rest == [] || !IsWhitespace(rest[|rest| - 1])
    ensures Trim(k + rest) == k + rest
  {
    var q := k + rest;
    assert q[0] == k[0];
    assert q[|q| - 1] == if rest == [] then k[|k| - 1] else rest[|rest| - 1];
    TrimStartOfClean(q);
  }

  /** The keyword test comes first: a query holding a keyword is NARROW whatever else it holds. */
  lemma KeywordMeansNarrow(searchQuery: string)
    requires ContainsDetailedRegionKeyword(Trim(searchQuery))
    ensures DetermineSearchType(searchQuery) == NARROW
  {
  }

  /** `getAllWideRegions`: every key, in declaration order. */
  function GetAllWideRegions(): (r: seq<string>)
    ensures forall k :: k in r <==> k in WideRegionMap
    ensures forall i, j | 0 <= i < j < |r| :: r[i] != r[j]
  {
    KeysMatchTable();
    WideRegionKeys
  }
}
