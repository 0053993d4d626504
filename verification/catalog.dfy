/**
 * The fixed table of U.S. embassies and consulates the service monitors, its
 * lookups by code, location and crawler code, the region list, and the
 * per-system crawler location lists.
 */
module Catalog {

  import opened Wrappers
  import opened Seqs

  /**
   * One row of the table: Chinese and English names, the short code used
   * throughout the site, the appointment system ("cgi" or "ais"), region,
   * continent, ISO country code, UTC offset in hours, and the crawler code.
   */
  datatype Embassy = Embassy(
    nameCn: string, nameEn: string, code: string, sys: string, region: string,
    continent: string, country: string, utcOffset: real, crawlerCode: string)

  const ROWS: nat := 78

  /** Row `i` of the embassy table. */
  function Row(i: nat): (e: Embassy)
    requires i < ROWS
  {
    match i
    case 0 => Embassy("北京", "Beijing", "bj", "cgi", "DOMESTIC", "ASIA", "CHN", 8.0, "北京")
    case 1 => Embassy("北京（非硕博）", "Beijing (Others)", "bju", "cgi", "DOMESTIC", "ASIA", "CHN", 8.0, "北京u")
    case 2 => Embassy("上海", "Shanghai", "sh", "cgi", "DOMESTIC", "ASIA", "CHN", 8.0, "上海")
    case 3 => Embassy("上海（非硕博）", "Shanghai (Others)", "shu", "cgi", "DOMESTIC", "ASIA", "CHN", 8.0, "上海u")
    case 4 => Embassy("成都", "Chengdu", "cd", "cgi", "DOMESTIC", "ASIA", "CHN", 8.0, "成都")
    case 5 => Embassy("广州", "Guangzhou", "gz", "cgi", "DOMESTIC", "ASIA", "CHN", 8.0, "广州")
    case 6 => Embassy("广州（非硕博）", "Guangzhou (Others)", "gzu", "cgi", "DOMESTIC", "ASIA", "CHN", 8.0, "广州u")
    case 7 => Embassy("沈阳", "Shenyang", "sy", "cgi", "DOMESTIC", "ASIA", "CHN", 8.0, "沈阳")
    case 8 => Embassy("沈阳（非硕博）", "Shenyang (Others)", "syu", "cgi", "DOMESTIC", "ASIA", "CHN", 8.0, "沈阳u")
    case 9 => Embassy("香港（非本地）", "Hong Kong (non-resident)", "hk", "cgi", "DOMESTIC", "ASIA", "CHN", 8.0, "香港")
    case 10 => Embassy("香港（本地）", "Hong Kong (resident)", "hkr", "cgi", "DOMESTIC", "ASIA", "CHN", 8.0, "香港r")
    case 11 => Embassy("台北", "Taipei", "tp", "cgi", "DOMESTIC", "ASIA", "CHN", 8.0, "台北")
    case 12 => Embassy("金边", "Phnom Penh", "pp", "cgi", "SOUTH_EAST_ASIA", "ASIA", "KHM", 7.0, "金边")
    case 13 => Embassy("新加坡", "Singapore", "sg", "cgi", "SOUTH_EAST_ASIA", "ASIA", "SGP", 8.0, "新加坡")
    case 14 => Embassy("首尔", "Seoul", "sel", "cgi", "EAST_ASIA", "ASIA", "KOR", 9.0, "首尔")
    case 15 => Embassy("河内", "Hanoi", "han", "cgi", "SOUTH_EAST_ASIA", "ASIA", "VNM", 7.0, "河内")
    case 16 => Embassy("胡志明", "Ho Chi Minh City", "sgn", "cgi", "SOUTH_EAST_ASIA", "ASIA", "VNM", 7.0, "胡志明")
    case 17 => Embassy("孟买", "Mumbai", "bom", "cgi", "SOUTH_ASIA", "ASIA", "IND", 5.5, "孟买")
    case 18 => Embassy("加尔各答", "Kolkata", "ccu", "cgi", "SOUTH_ASIA", "ASIA", "IND", 5.5, "加尔各答")
    case 19 => Embassy("海得拉巴", "Hyderabad", "hyd", "cgi", "SOUTH_ASIA", "ASIA", "IND", 5.5, "海得拉巴")
    case 20 => Embassy("金奈", "Chennai", "maa", "cgi", "SOUTH_ASIA", "ASIA", "IND", 5.5, "金奈")
    case 21 => Embassy("新德里", "New Delhi", "deli", "cgi", "SOUTH_ASIA", "ASIA", "IND", 5.5, "新德里")
    case 22 => Embassy("巴拿马", "Panama City", "pty", "cgi", "LATIN_AMERICA", "SOUTH_AMERICA", "PAN", -5.0, "巴拿马")
    case 23 => Embassy("墨尔本", "Melbourne", "mel", "cgi", "OCEANIA", "OCEANIA", "AUS", 10.0, "墨尔本")
    case 24 => Embassy("珀斯", "Perth", "per", "cgi", "OCEANIA", "OCEANIA", "AUS", 8.0, "珀斯")
    case 25 => Embassy("悉尼", "Sydney", "syd", "cgi", "OCEANIA", "OCEANIA", "AUS", 10.0, "悉尼")
    case 26 => Embassy("伯尔尼", "Bern", "brn", "cgi", "WEST_EUROPE", "EUROPE", "CHE", 2.0, "伯尔尼")
    case 27 => Embassy("福冈", "Fukuoka", "fuk", "cgi", "EAST_ASIA", "ASIA", "JPN", 9.0, "福冈")
    case 28 => Embassy("大阪", "Osaka", "itm", "cgi", "EAST_ASIA", "ASIA", "JPN", 9.0, "大阪")
    case 29 => Embassy("那霸", "Naha", "oka", "cgi", "EAST_ASIA", "ASIA", "JPN", 9.0, "那霸")
    case 30 => Embassy("札幌", "Sapporo", "cts", "cgi", "EAST_ASIA", "ASIA", "JPN", 9.0, "札幌")
    case 31 => Embassy("东京", "Tokyo", "hnd", "cgi", "EAST_ASIA", "ASIA", "JPN", 9.0, "东京")
    case 32 => Embassy("加德满都", "Kathmandu", "ktm", "cgi", "SOUTH_ASIA", "ASIA", "NPL", 5.75, "加德满都")
    case 33 => Embassy("柏林", "Berlin", "sxf", "cgi", "WEST_EUROPE", "EUROPE", "DEU", 2.0, "柏林")
    case 34 => Embassy("法兰克福", "Frankfurt", "fra", "cgi", "WEST_EUROPE", "EUROPE", "DEU", 2.0, "法兰克福")
    case 35 => Embassy("慕尼黑", "Munich", "muc", "cgi", "WEST_EUROPE", "EUROPE", "DEU", 2.0, "慕尼黑")
    case 36 => Embassy("曼谷", "Bangkok", "bkk", "cgi", "SOUTH_EAST_ASIA", "ASIA", "THA", 7.0, "曼谷")
    case 37 => Embassy("清迈", "Chiang Mai", "cnx", "cgi", "SOUTH_EAST_ASIA", "ASIA", "THA", 7.0, "清迈")
    case 38 => Embassy("圣何塞", "San José", "sjo", "cgi", "LATIN_AMERICA", "SOUTH_AMERICA", "CRI", -6.0, "圣何塞")
    case 39 => Embassy("圣多明各", "Santo Domingo", "sdq", "cgi", "LATIN_AMERICA", "SOUTH_AMERICA", "DOM", -4.0, "圣多明各")
    case 40 => Embassy("卡萨布兰卡", "Casablanca", "cmn", "cgi", "NORTH_AFRICA", "AFRICA", "MAR", 0.0, "卡萨布兰卡")
    case 41 => Embassy("贝尔法斯特", "Belfast", "bfs", "ais", "WEST_EUROPE", "EUROPE", "GBR", 1.0, "en-gb")
    case 42 => Embassy("伦敦", "London", "lcy", "ais", "WEST_EUROPE", "EUROPE", "GBR", 1.0, "en-gb")
    case 43 => Embassy("卡尔加里", "Calgary", "yyc", "ais", "NORTH_AMERICA", "NORTH_AMERICA", "CAN", -6.0, "en-ca")
    case 44 => Embassy("哈利法克斯", "Halifax", "yhz", "ais", "NORTH_AMERICA", "NORTH_AMERICA", "CAN", -3.0, "en-ca")
    case 45 => Embassy("蒙特利尔", "Montreal", "yul", "ais", "NORTH_AMERICA", "NORTH_AMERICA", "CAN", -4.0, "en-ca")
    case 46 => Embassy("渥太华", "Ottawa", "yow", "ais", "NORTH_AMERICA", "NORTH_AMERICA", "CAN", -4.0, "en-ca")
    case 47 => Embassy("魁北克城", "Quebec City", "yqb", "ais", "NORTH_AMERICA", "NORTH_AMERICA", "CAN", -4.0, "en-ca")
    case 48 => Embassy("多伦多", "Toronto", "yyz", "ais", "NORTH_AMERICA", "NORTH_AMERICA", "CAN", -4.0, "en-ca")
    case 49 => Embassy("温哥华", "Vancouver", "yvr", "ais", "NORTH_AMERICA", "NORTH_AMERICA", "CAN", -7.0, "en-ca")
    case 50 => Embassy("阿布扎比", "Abu Dhabi", "auh", "ais", "WEST_ASIA", "ASIA", "ARE", 4.0, "en-ae")
    case 51 => Embassy("迪拜", "Dubai", "dxb", "ais", "WEST_ASIA", "ASIA", "ARE", 4.0, "en-ae")
    case 52 => Embassy("贝尔格莱德", "Belgrade", "beg", "ais", "EAST_EUROPE", "EUROPE", "SRB", 2.0, "en-rs")
    case 53 => Embassy("巴黎", "Paris", "cdg", "ais", "WEST_EUROPE", "EUROPE", "FRA", 2.0, "en-fr")
    case 54 => Embassy("瓜亚基尔", "Guayaquil", "gye", "ais", "LATIN_AMERICA", "SOUTH_AMERICA", "ECU", -5.0, "en-ec")
    case 55 => Embassy("基多", "Quito", "uio", "ais", "LATIN_AMERICA", "SOUTH_AMERICA", "ECU", -5.0, "en-ec")
    case 56 => Embassy("安卡拉", "Ankara", "esb", "ais", "WEST_ASIA", "ASIA", "TUR", 3.0, "en-tr")
    case 57 => Embassy("伊斯坦布尔", "Istanbul", "ist", "ais", "WEST_ASIA", "ASIA", "TUR", 3.0, "en-tr")
    case 58 => Embassy("雅典", "Athens", "ath", "ais", "WEST_EUROPE", "EUROPE", "GRC", 3.0, "en-gr")
    case 59 => Embassy("波哥大", "Bogota", "bog", "ais", "LATIN_AMERICA", "SOUTH_AMERICA", "COL", -5.0, "en-co")
    case 60 => Embassy("布里奇顿", "Bridgetown", "bgi", "ais", "LATIN_AMERICA", "SOUTH_AMERICA", "BRB", -4.0, "en-bb")
    case 61 => Embassy("华雷斯城", "Ciudad Juarez", "cjs", "ais", "NORTH_AMERICA", "NORTH_AMERICA", "MEX", -6.0, "en-mx")
    case 62 => Embassy("瓜达拉哈拉", "Guadalajara", "gdl", "ais", "NORTH_AMERICA", "NORTH_AMERICA", "MEX", -5.0, "en-mx")
    case 63 => Embassy("埃莫西约", "Hermosillo", "hmo", "ais", "NORTH_AMERICA", "NORTH_AMERICA", "MEX", -7.0, "en-mx")
    case 64 => Embassy("马塔莫罗斯", "Matamoros", "cvj", "ais", "NORTH_AMERICA", "NORTH_AMERICA", "MEX", -5.0, "en-mx")
    case 65 => Embassy("墨西哥城", "Mexico City", "mex", "ais", "NORTH_AMERICA", "NORTH_AMERICA", "MEX", -5.0, "en-mx")
    case 66 => Embassy("蒙特雷", "Monterrey", "mty", "ais", "NORTH_AMERICA", "NORTH_AMERICA", "MEX", -5.0, "en-mx")
    case 67 => Embassy("诺加莱斯", "Nogales", "ols", "ais", "NORTH_AMERICA", "NORTH_AMERICA", "MEX", -7.0, "en-mx")
    case 68 => Embassy("新拉雷多", "Nuevo Laredo", "nld", "ais", "NORTH_AMERICA", "NORTH_AMERICA", "MEX", -5.0, "en-mx")
    case 69 => Embassy("蒂华纳", "Tijuana", "tij", "ais", "NORTH_AMERICA", "NORTH_AMERICA", "MEX", -7.0, "en-mx")
    case 70 => Embassy("拿骚", "Nassau", "nas", "ais", "LATIN_AMERICA", "SOUTH_AMERICA", "BHS", -4.0, "en-bs")
    case 71 => Embassy("阿姆斯特丹", "Amsterdam", "ams", "ais", "WEST_EUROPE", "EUROPE", "NLD", 2.0, "en-nl")
    case 72 => Embassy("布鲁塞尔", "Brussels", "bru", "ais", "WEST_EUROPE", "EUROPE", "BEL", 2.0, "en-be")
    case 73 => Embassy("佛罗伦萨", "Florence", "flr", "ais", "WEST_EUROPE", "EUROPE", "ITA", 2.0, "en-it")
    case 74 => Embassy("米兰", "Milan", "mxp", "ais", "WEST_EUROPE", "EUROPE", "ITA", 2.0, "en-it")
    case 75 => Embassy("那不勒斯", "Naples", "nap", "ais", "WEST_EUROPE", "EUROPE", "ITA", 2.0, "en-it")
    case 76 => Embassy("罗马", "Rome", "fco", "ais", "WEST_EUROPE", "EUROPE", "ITA", 2.0, "en-it")
    case _ => Embassy("马德里", "Madrid", "mad", "ais", "WEST_EUROPE", "EUROPE", "ESP", 2.0, "en-es")
  }

  /** `get_embassy_lst`: the table in its order; every lookup walks it from the top. */
  function GetEmbassyLst(): (r: seq<Embassy>)
    ensures |r| == ROWS
  {
    seq(ROWS, i requires 0 <= i < ROWS => Row(i))
  }

  const FRONTEND_BASE_URI: string := "tuixue.online"

  /** Codes whose changes go to the domestic QQ group. */
  const DEFAULT_FILTER: seq<string> := ["bj", "sh", "gz", "sy", "bju", "shu", "gzu", "syu"]

  /** Codes whose changes go to the non-domestic QQ group. */
  const NONDOMESTIC_DEFAULT_FILTER: seq<string> := ["sg", "gye", "lcy"]

  /** The key the crawled data of `e` is stored under: the crawler code for "cgi", else the English name. */
  function Location(e: Embassy): string {
    if e.sys == "cgi" then e.crawlerCode else e.nameEn
  }

  /** The codes of `lst`, in order. */
  function Codes(lst: seq<Embassy>): (r: seq<string>)
    ensures |r| == |lst| && forall i :: 0 <= i < |lst| ==> r[i] == lst[i].code
  {
    seq(|lst|, i requires 0 <= i < |lst| => lst[i].code)
  }

  /** The crawler codes of `lst`, in order. */
  function CrawlerCodes(lst: seq<Embassy>): (r: seq<string>)
    ensures |r| == |lst| && forall i :: 0 <= i < |lst| ==> r[i] == lst[i].crawlerCode
  {
    seq(|lst|, i requires 0 <= i < |lst| => lst[i].crawlerCode)
  }

  /** `Subseq` on embassy lists carries over to their codes. */
  lemma {:induction false} CodesSubseq(a: seq<Embassy>, b: seq<Embassy>)
    requires Subseq(a, b)
    ensures Subseq(Codes(a), Codes(b))
    decreases |b|
  {
    if a == [] {
      SubseqEmpty(Codes(b));
    } else if b != [] {
      assert Codes(b) == [b[0].code] + Codes(b[1..]);
      if a[0] == b[0] {
        CodesSubseq(a[1..], b[1..]);
        assert Codes(a) == [a[0].code] + Codes(a[1..]);
        SubseqCons(Codes(a[1..]), Codes(b[1..]), b[0].code);
      } else {
        CodesSubseq(a, b[1..]);
        SubseqDrop(Codes(a), Codes(b[1..]), b[0].code);
      }
    }
  }

  /** `Subseq` on embassy lists carries over to their crawler codes. */
  lemma {:induction false} CrawlerCodesSubseq(a: seq<Embassy>, b: seq<Embassy>)
    requires Subseq(a, b)
    ensures Subseq(CrawlerCodes(a), CrawlerCodes(b))
    decreases |b|
  {
    if a == [] {
      SubseqEmpty(CrawlerCodes(b));
    } else if b != [] {
      assert CrawlerCodes(b) == [b[0].crawlerCode] + CrawlerCodes(b[1..]);
      if a[0] == b[0] {
        CrawlerCodesSubseq(a[1..], b[1..]);
        assert CrawlerCodes(a) == [a[0].crawlerCode] + CrawlerCodes(a[1..]);
        SubseqCons(CrawlerCodes(a[1..]), CrawlerCodes(b[1..]), b[0].crawlerCode);
      } else {
        CrawlerCodesSubseq(a, b[1..]);
        SubseqDrop(CrawlerCodes(a), CrawlerCodes(b[1..]), b[0].crawlerCode);
      }
    }
  }

  /** The row whose `code` is `key`, or -1. */
  function CodeIndex(key: string): int
  {
    if key == [] then -1
    else match |key|
    case 2 => (
      match key[0]
      case 'b' => (match key case "bj" => 0 case _ => -1)
      case 's' => (match key case "sh" => 2 case "sy" => 7 case "sg" => 13 case _ => -1)
      case 'c' => (match key case "cd" => 4 case _ => -1)
      case 'g' => (match key case "gz" => 5 case _ => -1)
      case 'h' => (match key case "hk" => 9 case _ => -1)
      case 't' => (match key case "tp" => 11 case _ => -1)
      case 'p' => (match key case "pp" => 12 case _ => -1)
      case _ => -1)
    case 3 => (
      match key[0]
      case 'b' => (match key case "bju" => 1 case "bom" => 17 case "brn" => 26 case "bkk" => 36 case "bfs" => 41 case "beg" => 52 case "bog" => 59 case "bgi" => 60 case "bru" => 72 case _ => -1)
      case 's' => (match key case "shu" => 3 case "syu" => 8 case "sel" => 14 case "sgn" => 16 case "syd" => 25 case "sxf" => 33 case "sjo" => 38 case "sdq" => 39 case _ => -1)
      case 'g' => (match key case "gzu" => 6 case "gye" => 54 case "gdl" => 62 case _ => -1)
      case 'h' => (match key case "hkr" => 10 case "han" => 15 case "hyd" => 19 case "hnd" => 31 case "hmo" => 63 case _ => -1)
      case 'c' => (match key case "ccu" => 18 case "cts" => 30 case "cnx" => 37 case "cmn" => 40 case "cdg" => 53 case "cjs" => 61 case "cvj" => 64 case _ => -1)
      case 'm' => (match key case "maa" => 20 case "mel" => 23 case "muc" => 35 case "mex" => 65 case "mty" => 66 case "mxp" => 74 case "mad" => 77 case _ => -1)
      case 'p' => (match key case "pty" => 22 case "per" => 24 case _ => -1)
      case 'f' => (match key case "fuk" => 27 case "fra" => 34 case "flr" => 73 case "fco" => 76 case _ => -1)
      case 'i' => (match key case "itm" => 28 case "ist" => 57 case _ => -1)
      case 'o' => (match key case "oka" => 29 case "ols" => 67 case _ => -1)
      case 'k' => (match key case "ktm" => 32 case _ => -1)
      case 'l' => (match key case "lcy" => 42 case _ => -1)
      case 'y' => (match key case "yyc" => 43 case "yhz" => 44 case "yul" => 45 case "yow" => 46 case "yqb" => 47 case "yyz" => 48 case "yvr" => 49 case _ => -1)
      case 'a' => (match key case "auh" => 50 case "ath" => 58 case "ams" => 71 case _ => -1)
      case 'd' => (match key case "dxb" => 51 case _ => -1)
      case 'u' => (match key case "uio" => 55 case _ => -1)
      case 'e' => (match key case "esb" => 56 case _ => -1)
      case 'n' => (match key case "nld" => 68 case "nas" => 70 case "nap" => 75 case _ => -1)
      case 't' => (match key case "tij" => 69 case _ => -1)
      case _ => -1)
    case 4 => (
      match key[0]
      case 'd' => (match key case "deli" => 21 case _ => -1)
      case _ => -1)
    case _ => -1
  }

  /** The row whose location is `key`, or -1. */
  function LocationIndex(key: string): int
  {
    if key == [] then -1
    else match |key|
    case 2 => (
      match key[0]
      case '北' => (match key case "北京" => 0 case _ => -1)
      case '上' => (match key case "上海" => 2 case _ => -1)
      case '成' => (match key case "成都" => 4 case _ => -1)
      case '广' => (match key case "广州" => 5 case _ => -1)
      case '沈' => (match key case "沈阳" => 7 case _ => -1)
      case '香' => (match key case "香港" => 9 case _ => -1)
      case '台' => (match key case "台北" => 11 case _ => -1)
      case '金' => (match key case "金边" => 12 case "金奈" => 20 case _ => -1)
      case '首' => (match key case "首尔" => 14 case _ => -1)
      case '河' => (match key case "河内" => 15 case _ => -1)
      case '孟' => (match key case "孟买" => 17 case _ => -1)
      case '珀' => (match key case "珀斯" => 24 case _ => -1)
      case '悉' => (match key case "悉尼" => 25 case _ => -1)
      case '福' => (match key case "福冈" => 27 case _ => -1)
      case '大' => (match key case "大阪" => 28 case _ => -1)
      case '那' => (match key case "那霸" => 29 case _ => -1)
      case '札' => (match key case "札幌" => 30 case _ => -1)
      case '东' => (match key case "东京" => 31 case _ => -1)
      case '柏' => (match key case "柏林" => 33 case _ => -1)
      case '曼' => (match key case "曼谷" => 36 case _ => -1)
      case '清' => (match key case "清迈" => 37 case _ => -1)
      case _ => -1)
    case 3 => (
      match key[0]
      case '北' => (match key case "北京u" => 1 case _ => -1)
      case '上' => (match key case "上海u" => 3 case _ => -1)
      case '广' => (match key case "广州u" => 6 case _ => -1)
      case '沈' => (match key case "沈阳u" => 8 case _ => -1)
      case '香' => (match key case "香港r" => 10 case _ => -1)
      case '新' => (match key case "新加坡" => 13 case "新德里" => 21 case _ => -1)
      case '胡' => (match key case "胡志明" => 16 case _ => -1)
      case '巴' => (match key case "巴拿马" => 22 case _ => -1)
      case '墨' => (match key case "墨尔本" => 23 case _ => -1)
      case '伯' => (match key case "伯尔尼" => 26 case _ => -1)
      case '慕' => (match key case "慕尼黑" => 35 case _ => -1)
      case '圣' => (match key case "圣何塞" => 38 case _ => -1)
      case _ => -1)
    case 4 => (
      match key[0]
      case '加' => (match key case "加尔各答" => 18 case "加德满都" => 32 case _ => -1)
      case '海' => (match key case "海得拉巴" => 19 case _ => -1)
      case '法' => (match key case "法兰克福" => 34 case _ => -1)
      case '圣' => (match key case "圣多明各" => 39 case _ => -1)
      case 'R' => (match key case "Rome" => 76 case _ => -1)
      case _ => -1)
    case 5 => (
      match key[0]
      case '卡' => (match key case "卡萨布兰卡" => 40 case _ => -1)
      case 'D' => (match key case "Dubai" => 51 case _ => -1)
      case 'P' => (match key case "Paris" => 53 case _ => -1)
      case 'Q' => (match key case "Quito" => 55 case _ => -1)
      case 'M' => (match key case "Milan" => 74 case _ => -1)
      case _ => -1)
    case 6 => (
      match key[0]
      case 'L' => (match key case "London" => 42 case _ => -1)
      case 'O' => (match key case "Ottawa" => 46 case _ => -1)
      case 'A' => (match key case "Ankara" => 56 case "Athens" => 58 case _ => -1)
      case 'B' => (match key case "Bogota" => 59 case _ => -1)
      case 'N' => (match key case "Nassau" => 70 case "Naples" => 75 case _ => -1)
      case 'M' => (match key case "Madrid" => 77 case _ => -1)
      case _ => -1)
    case 7 => (
      match key[0]
      case 'B' => (match key case "Belfast" => 41 case _ => -1)
      case 'C' => (match key case "Calgary" => 43 case _ => -1)
      case 'H' => (match key case "Halifax" => 44 case _ => -1)
      case 'T' => (match key case "Toronto" => 48 case "Tijuana" => 69 case _ => -1)
      case 'N' => (match key case "Nogales" => 67 case _ => -1)
      case _ => -1)
    case 8 => (
      match key[0]
      case 'M' => (match key case "Montreal" => 45 case _ => -1)
      case 'B' => (match key case "Belgrade" => 52 case "Brussels" => 72 case _ => -1)
      case 'I' => (match key case "Istanbul" => 57 case _ => -1)
      case 'F' => (match key case "Florence" => 73 case _ => -1)
      case _ => -1)
    case 9 => (
      match key[0]
      case 'V' => (match key case "Vancouver" => 49 case _ => -1)
      case 'A' => (match key case "Abu Dhabi" => 50 case "Amsterdam" => 71 case _ => -1)
      case 'G' => (match key case "Guayaquil" => 54 case _ => -1)
      case 'M' => (match key case "Matamoros" => 64 case "Monterrey" => 66 case _ => -1)
      case _ => -1)
    case 10 => (
      match key[0]
      case 'B' => (match key case "Bridgetown" => 60 case _ => -1)
      case 'H' => (match key case "Hermosillo" => 63 case _ => -1)
      case _ => -1)
    case 11 => (
      match key[0]
      case 'Q' => (match key case "Quebec City" => 47 case _ => -1)
      case 'G' => (match key case "Guadalajara" => 62 case _ => -1)
      case 'M' => (match key case "Mexico City" => 65 case _ => -1)
      case _ => -1)
    case 12 => (
      match key[0]
      case 'N' => (match key case "Nuevo Laredo" => 68 case _ => -1)
      case _ => -1)
    case 13 => (
      match key[0]
      case 'C' => (match key case "Ciudad Juarez" => 61 case _ => -1)
      case _ => -1)
    case _ => -1
  }

  lemma CodeIndexRows0()
    ensures CodeIndex(Row(0).code) == 0
  {
  }

  lemma CodeIndexRows1()
    ensures CodeIndex(Row(1).code) == 1
  {
  }

  lemma CodeIndexRows2()
    ensures CodeIndex(Row(2).code) == 2
  {
  }

  lemma CodeIndexRows3()
    ensures CodeIndex(Row(3).code) == 3
  {
  }

  lemma CodeIndexRows4()
    ensures CodeIndex(Row(4).code) == 4
  {
  }

  lemma CodeIndexRows5()
    ensures CodeIndex(Row(5).code) == 5
  {
  }

  lemma CodeIndexRows6()
    ensures CodeIndex(Row(6).code) == 6
  {
  }

  lemma CodeIndexRows7()
    ensures CodeIndex(Row(7).code) == 7
  {
  }

  lemma CodeIndexRows8()
    ensures CodeIndex(Row(8).code) == 8
  {
  }

  lemma CodeIndexRows9()
    ensures CodeIndex(Row(9).code) == 9
  {
  }

  lemma CodeIndexRows10()
    ensures CodeIndex(Row(10).code) == 10
  {
  }

  lemma CodeIndexRows11()
    ensures CodeIndex(Row(11).code) == 11
  {
  }

  lemma CodeIndexRows12()
    ensures CodeIndex(Row(12).code) == 12
  {
  }

  lemma CodeIndexRows13()
    ensures CodeIndex(Row(13).code) == 13
  {
  }

  lemma CodeIndexRows14()
    ensures CodeIndex(Row(14).code) == 14
  {
  }

  lemma CodeIndexRows15()
    ensures CodeIndex(Row(15).code) == 15
  {
  }

  lemma CodeIndexRows16()
    ensures CodeIndex(Row(16).code) == 16
  {
  }

  lemma CodeIndexRows17()
    ensures CodeIndex(Row(17).code) == 17
  {
  }

  lemma CodeIndexRows18()
    ensures CodeIndex(Row(18).code) == 18
  {
  }

  lemma CodeIndexRows19()
    ensures CodeIndex(Row(19).code) == 19
  {
  }

  lemma CodeIndexRows20()
    ensures CodeIndex(Row(20).code) == 20
  {
  }

  lemma CodeIndexRows21()
    ensures CodeIndex(Row(21).code) == 21
  {
  }

  lemma CodeIndexRows22()
    ensures CodeIndex(Row(22).code) == 22
  {
  }

  lemma CodeIndexRows23()
    ensures CodeIndex(Row(23).code) == 23
  {
  }

  lemma CodeIndexRows24()
    ensures CodeIndex(Row(24).code) == 24
  {
  }

  lemma CodeIndexRows25()
    ensures CodeIndex(Row(25).code) == 25
  {
  }

  lemma CodeIndexRows26()
    ensures CodeIndex(Row(26).code) == 26
  {
  }

  lemma CodeIndexRows27()
    ensures CodeIndex(Row(27).code) == 27
  {
  }

  lemma CodeIndexRows28()
    ensures CodeIndex(Row(28).code) == 28
  {
  }

  lemma CodeIndexRows29()
    ensures CodeIndex(Row(29).code) == 29
  {
  }

  lemma CodeIndexRows30()
    ensures CodeIndex(Row(30).code) == 30
  {
  }

  lemma CodeIndexRows31()
    ensures CodeIndex(Row(31).code) == 31
  {
  }

  lemma CodeIndexRows32()
    ensures CodeIndex(Row(32).code) == 32
  {
  }

  lemma CodeIndexRows33()
    ensures CodeIndex(Row(33).code) == 33
  {
  }

  lemma CodeIndexRows34()
    ensures CodeIndex(Row(34).code) == 34
  {
  }

  lemma CodeIndexRows35()
    ensures CodeIndex(Row(35).code) == 35
  {
  }

  lemma CodeIndexRows36()
    ensures CodeIndex(Row(36).code) == 36
  {
  }

  lemma CodeIndexRows37()
    ensures CodeIndex(Row(37).code) == 37
  {
  }

  lemma CodeIndexRows38()
    ensures CodeIndex(Row(38).code) == 38
  {
  }

  lemma CodeIndexRows39()
    ensures CodeIndex(Row(39).code) == 39
  {
  }

  lemma CodeIndexRows40()
    ensures CodeIndex(Row(40).code) == 40
  {
  }

  lemma CodeIndexRows41()
    ensures CodeIndex(Row(41).code) == 41
  {
  }

  lemma CodeIndexRows42()
    ensures CodeIndex(Row(42).code) == 42
  {
  }

  lemma CodeIndexRows43()
    ensures CodeIndex(Row(43).code) == 43
  {
  }

  lemma CodeIndexRows44()
    ensures CodeIndex(Row(44).code) == 44
  {
  }

  lemma CodeIndexRows45()
    ensures CodeIndex(Row(45).code) == 45
  {
  }

  lemma CodeIndexRows46()
    ensures CodeIndex(Row(46).code) == 46
  {
  }

  lemma CodeIndexRows47()
    ensures CodeIndex(Row(47).code) == 47
  {
  }

  lemma CodeIndexRows48()
    ensures CodeIndex(Row(48).code) == 48
  {
  }

  lemma CodeIndexRows49()
    ensures CodeIndex(Row(49).code) == 49
  {
  }

  lemma CodeIndexRows50()
    ensures CodeIndex(Row(50).code) == 50
  {
  }

  lemma CodeIndexRows51()
    ensures CodeIndex(Row(51).code) == 51
  {
  }

  lemma CodeIndexRows52()
    ensures CodeIndex(Row(52).code) == 52
  {
  }

  lemma CodeIndexRows53()
    ensures CodeIndex(Row(53).code) == 53
  {
  }

  lemma CodeIndexRows54()
    ensures CodeIndex(Row(54).code) == 54
  {
  }

  lemma CodeIndexRows55()
    ensures CodeIndex(Row(55).code) == 55
  {
  }

  lemma CodeIndexRows56()
    ensures CodeIndex(Row(56).code) == 56
  {
  }

  lemma CodeIndexRows57()
    ensures CodeIndex(Row(57).code) == 57
  {
  }

  lemma CodeIndexRows58()
    ensures CodeIndex(Row(58).code) == 58
  {
  }

  lemma CodeIndexRows59()
    ensures CodeIndex(Row(59).code) == 59
  {
  }

  lemma CodeIndexRows60()
    ensures CodeIndex(Row(60).code) == 60
  {
  }

  lemma CodeIndexRows61()
    ensures CodeIndex(Row(61).code) == 61
  {
  }

  lemma CodeIndexRows62()
    ensures CodeIndex(Row(62).code) == 62
  {
  }

  lemma CodeIndexRows63()
    ensures CodeIndex(Row(63).code) == 63
  {
  }

  lemma CodeIndexRows64()
    ensures CodeIndex(Row(64).code) == 64
  {
  }

  lemma CodeIndexRows65()
    ensures CodeIndex(Row(65).code) == 65
  {
  }

  lemma CodeIndexRows66()
    ensures CodeIndex(Row(66).code) == 66
  {
  }

  lemma CodeIndexRows67()
    ensures CodeIndex(Row(67).code) == 67
  {
  }

  lemma CodeIndexRows68()
    ensures CodeIndex(Row(68).code) == 68
  {
  }

  lemma CodeIndexRows69()
    ensures CodeIndex(Row(69).code) == 69
  {
  }

  lemma CodeIndexRows70()
    ensures CodeIndex(Row(70).code) == 70
  {
  }

  lemma CodeIndexRows71()
    ensures CodeIndex(Row(71).code) == 71
  {
  }

  lemma CodeIndexRows72()
    ensures CodeIndex(Row(72).code) == 72
  {
  }

  lemma CodeIndexRows73()
    ensures CodeIndex(Row(73).code) == 73
  {
  }

  lemma CodeIndexRows74()
    ensures CodeIndex(Row(74).code) == 74
  {
  }

  lemma CodeIndexRows75()
    ensures CodeIndex(Row(75).code) == 75
  {
  }

  lemma CodeIndexRows76()
    ensures CodeIndex(Row(76).code) == 76
  {
  }

  lemma CodeIndexRows77()
    ensures CodeIndex(Row(77).code) == 77
  {
  }

  lemma LocationIndexRows0()
    ensures LocationIndex(Location(Row(0))) == 0
  {
  }

  lemma LocationIndexRows1()
    ensures LocationIndex(Location(Row(1))) == 1
  {
  }

  lemma LocationIndexRows2()
    ensures LocationIndex(Location(Row(2))) == 2
  {
  }

  lemma LocationIndexRows3()
    ensures LocationIndex(Location(Row(3))) == 3
  {
  }

  lemma LocationIndexRows4()
    ensures LocationIndex(Location(Row(4))) == 4
  {
  }

  lemma LocationIndexRows5()
    ensures LocationIndex(Location(Row(5))) == 5
  {
  }

  lemma LocationIndexRows6()
    ensures LocationIndex(Location(Row(6))) == 6
  {
  }

  lemma LocationIndexRows7()
    ensures LocationIndex(Location(Row(7))) == 7
  {
  }

  lemma LocationIndexRows8()
    ensures LocationIndex(Location(Row(8))) == 8
  {
  }

  lemma LocationIndexRows9()
    ensures LocationIndex(Location(Row(9))) == 9
  {
  }

  lemma LocationIndexRows10()
    ensures LocationIndex(Location(Row(10))) == 10
  {
  }

  lemma LocationIndexRows11()
    ensures LocationIndex(Location(Row(11))) == 11
  {
  }

  lemma LocationIndexRows12()
    ensures LocationIndex(Location(Row(12))) == 12
  {
  }

  lemma LocationIndexRows13()
    ensures LocationIndex(Location(Row(13))) == 13
  {
  }

  lemma LocationIndexRows14()
    ensures LocationIndex(Location(Row(14))) == 14
  {
  }

  lemma LocationIndexRows15()
    ensures LocationIndex(Location(Row(15))) == 15
  {
  }

  lemma LocationIndexRows16()
    ensures LocationIndex(Location(Row(16))) == 16
  {
  }

  lemma LocationIndexRows17()
    ensures LocationIndex(Location(Row(17))) == 17
  {
  }

  lemma LocationIndexRows18()
    ensures LocationIndex(Location(Row(18))) == 18
  {
  }

  lemma LocationIndexRows19()
    ensures LocationIndex(Location(Row(19))) == 19
  {
  }

  lemma LocationIndexRows20()
    ensures LocationIndex(Location(Row(20))) == 20
  {
  }

  lemma LocationIndexRows21()
    ensures LocationIndex(Location(Row(21))) == 21
  {
  }

  lemma LocationIndexRows22()
    ensures LocationIndex(Location(Row(22))) == 22
  {
  }

  lemma LocationIndexRows23()
    ensures LocationIndex(Location(Row(23))) == 23
  {
  }

  lemma LocationIndexRows24()
    ensures LocationIndex(Location(Row(24))) == 24
  {
  }

  lemma LocationIndexRows25()
    ensures LocationIndex(Location(Row(25))) == 25
  {
  }

  lemma LocationIndexRows26()
    ensures LocationIndex(Location(Row(26))) == 26
  {
  }

  lemma LocationIndexRows27()
    ensures LocationIndex(Location(Row(27))) == 27
  {
  }

  lemma LocationIndexRows28()
    ensures LocationIndex(Location(Row(28))) == 28
  {
  }

  lemma LocationIndexRows29()
    ensures LocationIndex(Location(Row(29))) == 29
  {
  }

  lemma LocationIndexRows30()
    ensures LocationIndex(Location(Row(30))) == 30
  {
  }

  lemma LocationIndexRows31()
    ensures LocationIndex(Location(Row(31))) == 31
  {
  }

  lemma LocationIndexRows32()
    ensures LocationIndex(Location(Row(32))) == 32
  {
  }

  lemma LocationIndexRows33()
    ensures LocationIndex(Location(Row(33))) == 33
  {
  }

  lemma LocationIndexRows34()
    ensures LocationIndex(Location(Row(34))) == 34
  {
  }

  lemma LocationIndexRows35()
    ensures LocationIndex(Location(Row(35))) == 35
  {
  }

  lemma LocationIndexRows36()
    ensures LocationIndex(Location(Row(36))) == 36
  {
  }

  lemma LocationIndexRows37()
    ensures LocationIndex(Location(Row(37))) == 37
  {
  }

  lemma LocationIndexRows38()
    ensures LocationIndex(Location(Row(38))) == 38
  {
  }

  lemma LocationIndexRows39()
    ensures LocationIndex(Location(Row(39))) == 39
  {
  }

  lemma LocationIndexRows40()
    ensures LocationIndex(Location(Row(40))) == 40
  {
  }

  lemma LocationIndexRows41()
    ensures LocationIndex(Location(Row(41))) == 41
  {
  }

  lemma LocationIndexRows42()
    ensures LocationIndex(Location(Row(42))) == 42
  {
  }

  lemma LocationIndexRows43()
    ensures LocationIndex(Location(Row(43))) == 43
  {
  }

  lemma LocationIndexRows44()
    ensures LocationIndex(Location(Row(44))) == 44
  {
  }

  lemma LocationIndexRows45()
    ensures LocationIndex(Location(Row(45))) == 45
  {
  }

  lemma LocationIndexRows46()
    ensures LocationIndex(Location(Row(46))) == 46
  {
  }

  lemma LocationIndexRows47()
    ensures LocationIndex(Location(Row(47))) == 47
  {
  }

  lemma LocationIndexRows48()
    ensures LocationIndex(Location(Row(48))) == 48
  {
  }

  lemma LocationIndexRows49()
    ensures LocationIndex(Location(Row(49))) == 49
  {
  }

  lemma LocationIndexRows50()
    ensures LocationIndex(Location(Row(50))) == 50
  {
  }

  lemma LocationIndexRows51()
    ensures LocationIndex(Location(Row(51))) == 51
  {
  }

  lemma LocationIndexRows52()
    ensures LocationIndex(Location(Row(52))) == 52
  {
  }

  lemma LocationIndexRows53()
    ensures LocationIndex(Location(Row(53))) == 53
  {
  }

  lemma LocationIndexRows54()
    ensures LocationIndex(Location(Row(54))) == 54
  {
  }

  lemma LocationIndexRows55()
    ensures LocationIndex(Location(Row(55))) == 55
  {
  }

  lemma LocationIndexRows56()
    ensures LocationIndex(Location(Row(56))) == 56
  {
  }

  lemma LocationIndexRows57()
    ensures LocationIndex(Location(Row(57))) == 57
  {
  }

  lemma LocationIndexRows58()
    ensures LocationIndex(Location(Row(58))) == 58
  {
  }

  lemma LocationIndexRows59()
    ensures LocationIndex(Location(Row(59))) == 59
  {
  }

  lemma LocationIndexRows60()
    ensures LocationIndex(Location(Row(60))) == 60
  {
  }

  lemma LocationIndexRows61()
    ensures LocationIndex(Location(Row(61))) == 61
  {
  }

  lemma LocationIndexRows62()
    ensures LocationIndex(Location(Row(62))) == 62
  {
  }

  lemma LocationIndexRows63()
    ensures LocationIndex(Location(Row(63))) == 63
  {
  }

  lemma LocationIndexRows64()
    ensures LocationIndex(Location(Row(64))) == 64
  {
  }

  lemma LocationIndexRows65()
    ensures LocationIndex(Location(Row(65))) == 65
  {
  }

  lemma LocationIndexRows66()
    ensures LocationIndex(Location(Row(66))) == 66
  {
  }

  lemma LocationIndexRows67()
    ensures LocationIndex(Location(Row(67))) == 67
  {
  }

  lemma LocationIndexRows68()
    ensures LocationIndex(Location(Row(68))) == 68
  {
  }

  lemma LocationIndexRows69()
    ensures LocationIndex(Location(Row(69))) == 69
  {
  }

  lemma LocationIndexRows70()
    ensures LocationIndex(Location(Row(70))) == 70
  {
  }

  lemma LocationIndexRows71()
    ensures LocationIndex(Location(Row(71))) == 71
  {
  }

  lemma LocationIndexRows72()
    ensures LocationIndex(Location(Row(72))) == 72
  {
  }

  lemma LocationIndexRows73()
    ensures LocationIndex(Location(Row(73))) == 73
  {
  }

  lemma LocationIndexRows74()
    ensures LocationIndex(Location(Row(74))) == 74
  {
  }

  lemma LocationIndexRows75()
    ensures LocationIndex(Location(Row(75))) == 75
  {
  }

  lemma LocationIndexRows76()
    ensures LocationIndex(Location(Row(76))) == 76
  {
  }

  lemma LocationIndexRows77()
    ensures LocationIndex(Location(Row(77))) == 77
  {
  }

  /** `CodeIndex` inverts the code column. */
  lemma CodeIndexOfRow(i: nat)
    requires i < ROWS
    ensures CodeIndex(Row(i).code) == i
  {
    if i == 0 {
      CodeIndexRows0();
    } else if i == 1 {
      CodeIndexRows1();
    } else if i == 2 {
      CodeIndexRows2();
    } else if i == 3 {
      CodeIndexRows3();
    } else if i == 4 {
      CodeIndexRows4();
    } else if i == 5 {
      CodeIndexRows5();
    } else if i == 6 {
      CodeIndexRows6();
    } else if i == 7 {
      CodeIndexRows7();
    } else if i == 8 {
      CodeIndexRows8();
    } else if i == 9 {
      CodeIndexRows9();
    } else if i == 10 {
      CodeIndexRows10();
    } else if i == 11 {
      CodeIndexRows11();
    } else if i == 12 {
      CodeIndexRows12();
    } else if i == 13 {
      CodeIndexRows13();
    } else if i == 14 {
      CodeIndexRows14();
    } else if i == 15 {
      CodeIndexRows15();
    } else if i == 16 {
      CodeIndexRows16();
    } else if i == 17 {
      CodeIndexRows17();
    } else if i == 18 {
      CodeIndexRows18();
    } else if i == 19 {
      CodeIndexRows19();
    } else if i == 20 {
      CodeIndexRows20();
    } else if i == 21 {
      CodeIndexRows21();
    } else if i == 22 {
      CodeIndexRows22();
    } else if i == 23 {
      CodeIndexRows23();
    } else if i == 24 {
      CodeIndexRows24();
    } else if i == 25 {
      CodeIndexRows25();
    } else if i == 26 {
      CodeIndexRows26();
    } else if i == 27 {
      CodeIndexRows27();
    } else if i == 28 {
      CodeIndexRows28();
    } else if i == 29 {
      CodeIndexRows29();
    } else if i == 30 {
      CodeIndexRows30();
    } else if i == 31 {
      CodeIndexRows31();
    } else if i == 32 {
      CodeIndexRows32();
    } else if i == 33 {
      CodeIndexRows33();
    } else if i == 34 {
      CodeIndexRows34();
    } else if i == 35 {
      CodeIndexRows35();
    } else if i == 36 {
      CodeIndexRows36();
    } else if i == 37 {
      CodeIndexRows37();
    } else if i == 38 {
      CodeIndexRows38();
    } else if i == 39 {
      CodeIndexRows39();
    } else if i == 40 {
      CodeIndexRows40();
    } else if i == 41 {
      CodeIndexRows41();
    } else if i == 42 {
      CodeIndexRows42();
    } else if i == 43 {
      CodeIndexRows43();
    } else if i == 44 {
      CodeIndexRows44();
    } else if i == 45 {
      CodeIndexRows45();
    } else if i == 46 {
      CodeIndexRows46();
    } else if i == 47 {
      CodeIndexRows47();
    } else if i == 48 {
      CodeIndexRows48();
    } else if i == 49 {
      CodeIndexRows49();
    } else if i == 50 {
      CodeIndexRows50();
    } else if i == 51 {
      CodeIndexRows51();
    } else if i == 52 {
      CodeIndexRows52();
    } else if i == 53 {
      CodeIndexRows53();
    } else if i == 54 {
      CodeIndexRows54();
    } else if i == 55 {
      CodeIndexRows55();
    } else if i == 56 {
      CodeIndexRows56();
    } else if i == 57 {
      CodeIndexRows57();
    } else if i == 58 {
      CodeIndexRows58();
    } else if i == 59 {
      CodeIndexRows59();
    } else if i == 60 {
      CodeIndexRows60();
    } else if i == 61 {
      CodeIndexRows61();
    } else if i == 62 {
      CodeIndexRows62();
    } else if i == 63 {
      CodeIndexRows63();
    } else if i == 64 {
      CodeIndexRows64();
    } else if i == 65 {
      CodeIndexRows65();
    } else if i == 66 {
      CodeIndexRows66();
    } else if i == 67 {
      CodeIndexRows67();
    } else if i == 68 {
      CodeIndexRows68();
    } else if i == 69 {
      CodeIndexRows69();
    } else if i == 70 {
      CodeIndexRows70();
    } else if i == 71 {
      CodeIndexRows71();
    } else if i == 72 {
      CodeIndexRows72();
    } else if i == 73 {
      CodeIndexRows73();
    } else if i == 74 {
      CodeIndexRows74();
    } else if i == 75 {
      CodeIndexRows75();
    } else if i == 76 {
      CodeIndexRows76();
    } else {
      assert i == 77;
      CodeIndexRows77();
    }
  }

  /** `LocationIndex` inverts the location column. */
  lemma LocationIndexOfRow(i: nat)
    requires i < ROWS
    ensures LocationIndex(Location(Row(i))) == i
  {
    if i == 0 {
      LocationIndexRows0();
    } else if i == 1 {
      LocationIndexRows1();
    } else if i == 2 {
      LocationIndexRows2();
    } else if i == 3 {
      LocationIndexRows3();
    } else if i == 4 {
      LocationIndexRows4();
    } else if i == 5 {
      LocationIndexRows5();
    } else if i == 6 {
      LocationIndexRows6();
    } else if i == 7 {
      LocationIndexRows7();
    } else if i == 8 {
      LocationIndexRows8();
    } else if i == 9 {
      LocationIndexRows9();
    } else if i == 10 {
      LocationIndexRows10();
    } else if i == 11 {
      LocationIndexRows11();
    } else if i == 12 {
      LocationIndexRows12();
    } else if i == 13 {
      LocationIndexRows13();
    } else if i == 14 {
      LocationIndexRows14();
    } else if i == 15 {
      LocationIndexRows15();
    } else if i == 16 {
      LocationIndexRows16();
    } else if i == 17 {
      LocationIndexRows17();
    } else if i == 18 {
      LocationIndexRows18();
    } else if i == 19 {
      LocationIndexRows19();
    } else if i == 20 {
      LocationIndexRows20();
    } else if i == 21 {
      LocationIndexRows21();
    } else if i == 22 {
      LocationIndexRows22();
    } else if i == 23 {
      LocationIndexRows23();
    } else if i == 24 {
      LocationIndexRows24();
    } else if i == 25 {
      LocationIndexRows25();
    } else if i == 26 {
      LocationIndexRows26();
    } else if i == 27 {
      LocationIndexRows27();
    } else if i == 28 {
      LocationIndexRows28();
    } else if i == 29 {
      LocationIndexRows29();
    } else if i == 30 {
      LocationIndexRows30();
    } else if i == 31 {
      LocationIndexRows31();
    } else if i == 32 {
      LocationIndexRows32();
    } else if i == 33 {
      LocationIndexRows33();
    } else if i == 34 {
      LocationIndexRows34();
    } else if i == 35 {
      LocationIndexRows35();
    } else if i == 36 {
      LocationIndexRows36();
    } else if i == 37 {
      LocationIndexRows37();
    } else if i == 38 {
      LocationIndexRows38();
    } else if i == 39 {
      LocationIndexRows39();
    } else if i == 40 {
      LocationIndexRows40();
    } else if i == 41 {
      LocationIndexRows41();
    } else if i == 42 {
      LocationIndexRows42();
    } else if i == 43 {
      LocationIndexRows43();
    } else if i == 44 {
      LocationIndexRows44();
    } else if i == 45 {
      LocationIndexRows45();
    } else if i == 46 {
      LocationIndexRows46();
    } else if i == 47 {
      LocationIndexRows47();
    } else if i == 48 {
      LocationIndexRows48();
    } else if i == 49 {
      LocationIndexRows49();
    } else if i == 50 {
      LocationIndexRows50();
    } else if i == 51 {
      LocationIndexRows51();
    } else if i == 52 {
      LocationIndexRows52();
    } else if i == 53 {
      LocationIndexRows53();
    } else if i == 54 {
      LocationIndexRows54();
    } else if i == 55 {
      LocationIndexRows55();
    } else if i == 56 {
      LocationIndexRows56();
    } else if i == 57 {
      LocationIndexRows57();
    } else if i == 58 {
      LocationIndexRows58();
    } else if i == 59 {
      LocationIndexRows59();
    } else if i == 60 {
      LocationIndexRows60();
    } else if i == 61 {
      LocationIndexRows61();
    } else if i == 62 {
      LocationIndexRows62();
    } else if i == 63 {
      LocationIndexRows63();
    } else if i == 64 {
      LocationIndexRows64();
    } else if i == 65 {
      LocationIndexRows65();
    } else if i == 66 {
      LocationIndexRows66();
    } else if i == 67 {
      LocationIndexRows67();
    } else if i == 68 {
      LocationIndexRows68();
    } else if i == 69 {
      LocationIndexRows69();
    } else if i == 70 {
      LocationIndexRows70();
    } else if i == 71 {
      LocationIndexRows71();
    } else if i == 72 {
      LocationIndexRows72();
    } else if i == 73 {
      LocationIndexRows73();
    } else if i == 74 {
      LocationIndexRows74();
    } else if i == 75 {
      LocationIndexRows75();
    } else if i == 76 {
      LocationIndexRows76();
    } else {
      assert i == 77;
      LocationIndexRows77();
    }
  }

  /** Position `i` of the list is row `i` of the table. */
  lemma ListIsTable(i: nat)
    requires i < ROWS
    ensures GetEmbassyLst()[i] == Row(i)
  {
  }

  /** No two embassies of `lst` share a code. */
  predicate CodesUnique(lst: seq<Embassy>) {
    forall i, j :: 0 <= i < |lst| && 0 <= j < |lst| && lst[i].code == lst[j].code ==> i == j
  }

  /** No two embassies of `lst` share a location. */
  predicate LocationsUnique(lst: seq<Embassy>) {
    forall i, j :: 0 <= i < |lst| && 0 <= j < |lst| && Location(lst[i]) == Location(lst[j]) ==> i == j
  }

  /** The code is a key of the embassy table. */
  lemma TableCodesUnique()
    ensures CodesUnique(GetEmbassyLst())
  {
    var lst := GetEmbassyLst();
    forall i, j | 0 <= i < |lst| && 0 <= j < |lst| && lst[i].code == lst[j].code
      ensures i == j
    {
      ListIsTable(i);
      ListIsTable(j);
      CodeIndexOfRow(i);
      CodeIndexOfRow(j);
    }
  }

  /** The location is a key of the embassy table. */
  lemma TableLocationsUnique()
    ensures LocationsUnique(GetEmbassyLst())
  {
    var lst := GetEmbassyLst();
    forall i, j | 0 <= i < |lst| && 0 <= j < |lst| && Location(lst[i]) == Location(lst[j])
      ensures i == j
    {
      ListIsTable(i);
      ListIsTable(j);
      LocationIndexOfRow(i);
      LocationIndexOfRow(j);
    }
  }

  /** `get_embassy_by_code` over the table `lst`: the first embassy with this code, or None when none has it. */
  function GetEmbassyByCode(lst: seq<Embassy>, code: string): (r: Option<Embassy>)
    ensures r.Some? ==> r.value in lst && r.value.code == code
    ensures r.None? <==> forall i :: 0 <= i < |lst| ==> lst[i].code != code
  {
    First(lst, (e: Embassy) => e.code == code)
  }

  /** In a table keyed by code, looking up the code of any embassy finds exactly that embassy. */
  lemma GetEmbassyByCodeOfRow(lst: seq<Embassy>, i: nat)
    requires CodesUnique(lst) && i < |lst|
    ensures GetEmbassyByCode(lst, lst[i].code) == Some(lst[i])
  {
    FirstOfOnly(lst, (e: Embassy) => e.code == lst[i].code, i);
  }

  /** `get_embassy_by_loc` over the table `lst`: the first embassy at this location, or None when none is there. */
  function GetEmbassyByLoc(lst: seq<Embassy>, loc: string): (r: Option<Embassy>)
    ensures r.Some? ==> r.value in lst && Location(r.value) == loc
    ensures r.None? <==> forall i :: 0 <= i < |lst| ==> Location(lst[i]) != loc
  {
    First(lst, (e: Embassy) => Location(e) == loc)
  }

  /** In a table keyed by location, the location of any embassy leads back to exactly that embassy. */
  lemma GetEmbassyByLocOfRow(lst: seq<Embassy>, i: nat)
    requires LocationsUnique(lst) && i < |lst|
    ensures GetEmbassyByLoc(lst, Location(lst[i])) == Some(lst[i])
  {
    FirstOfOnly(lst, (e: Embassy) => Location(e) == Location(lst[i]), i);
  }

  /** `get_embassy_list_by_crawler_code` over the table `lst`: the embassies with this crawler code, in table order. */
  function GetEmbassyListByCrawlerCode(lst: seq<Embassy>, crawlerCode: string): (r: seq<Embassy>)
    ensures Subseq(r, lst)
    ensures forall k :: 0 <= k < |r| ==> r[k].crawlerCode == crawlerCode
    ensures forall i :: 0 <= i < |lst| && lst[i].crawlerCode == crawlerCode ==> lst[i] in r
  {
    FilterSubseq(lst, (e: Embassy) => e.crawlerCode == crawlerCode);
    Filter(lst, (e: Embassy) => e.crawlerCode == crawlerCode)
  }

  /** A region and the codes of its embassies. */
  datatype RegionCodes = RegionCodes(region: string, embassyCodeLst: seq<string>)

  /** The codes of the embassies of `lst` in `region`, in table order. */
  function CodesInRegion(lst: seq<Embassy>, region: string): seq<string> {
    Codes(Filter(lst, (e: Embassy) => e.region == region))
  }

  /** The region of every embassy, in table order. */
  function RegionColumn(lst: seq<Embassy>): (r: seq<string>)
    ensures |r| == |lst| && forall i :: 0 <= i < |lst| ==> r[i] == lst[i].region
  {
    seq(|lst|, i requires 0 <= i < |lst| => lst[i].region)
  }

  /** Every region of `lst`, once each, in order of first appearance. */
  function Regions(lst: seq<Embassy>): (r: seq<string>)
    ensures NoDup(r)
    ensures forall k :: 0 <= k < |r| ==> r[k] in RegionColumn(lst)
    ensures forall i :: 0 <= i < |lst| ==> lst[i].region in r
  {
    Dedup(RegionColumn(lst))
  }

  /** `get_region_mapping` over the table `lst`: one entry per region, with the codes of that region's embassies. */
  function GetRegionMapping(lst: seq<Embassy>): (m: seq<RegionCodes>)
    ensures |m| == |Regions(lst)|
    ensures forall k :: 0 <= k < |m| ==> m[k].region == Regions(lst)[k]
  {
    var regions := Regions(lst);
    seq(|regions|, k requires 0 <= k < |regions| => RegionCodes(regions[k], CodesInRegion(lst, regions[k])))
  }

  /** In a table keyed by code, a code is listed under a region exactly when its embassy lies in that region. */
  lemma CodesInRegionExactly(lst: seq<Embassy>, region: string, i: nat)
    requires CodesUnique(lst) && i < |lst|
    ensures lst[i].code in CodesInRegion(lst, region) <==> lst[i].region == region
  {
    var p := (e: Embassy) => e.region == region;
    var f := Filter(lst, p);
    var codes := Codes(f);
    assert codes == CodesInRegion(lst, region);
    if lst[i].region == region {
      var k :| 0 <= k < |f| && f[k] == lst[i];
      assert codes[k] == lst[i].code;
    }
    if lst[i].code in codes {
      var k :| 0 <= k < |codes| && codes[k] == lst[i].code;
      assert f[k] in lst && p(f[k]);
      var j :| 0 <= j < |lst| && lst[j] == f[k];
    }
  }

  /** Each region of the mapping lists exactly the codes of its own embassies, and none is empty. */
  lemma RegionMappingExact(lst: seq<Embassy>, k: nat, i: nat)
    requires CodesUnique(lst) && k < |GetRegionMapping(lst)| && i < |lst|
    ensures lst[i].code in GetRegionMapping(lst)[k].embassyCodeLst <==> lst[i].region == GetRegionMapping(lst)[k].region
    ensures GetRegionMapping(lst)[k].embassyCodeLst != []
    ensures forall c :: c in GetRegionMapping(lst)[k].embassyCodeLst ==>
      exists j :: 0 <= j < |lst| && lst[j].code == c && lst[j].region == GetRegionMapping(lst)[k].region
    ensures Subseq(GetRegionMapping(lst)[k].embassyCodeLst, Codes(lst))
  {
    var m := GetRegionMapping(lst);
    var region := m[k].region;
    assert m[k].embassyCodeLst == CodesInRegion(lst, region);
    CodesInRegionExactly(lst, region, i);
    assert region in RegionColumn(lst);
    var j :| 0 <= j < |lst| && RegionColumn(lst)[j] == region;
    CodesInRegionExactly(lst, region, j);
    CodesInRegionSound(lst, region);
    var p := (e: Embassy) => e.region == region;
    FilterSubseq(lst, p);
    CodesSubseq(Filter(lst, p), lst);
  }

  /** Every code listed under a region is the code of an embassy of that region. */
  lemma CodesInRegionSound(lst: seq<Embassy>, region: string)
    ensures forall c :: c in CodesInRegion(lst, region) ==>
      exists j :: 0 <= j < |lst| && lst[j].code == c && lst[j].region == region
  {
    var p := (e: Embassy) => e.region == region;
    var f := Filter(lst, p);
    forall c | c in CodesInRegion(lst, region)
      ensures exists j :: 0 <= j < |lst| && lst[j].code == c && lst[j].region == region
    {
      var a :| 0 <= a < |f| && Codes(f)[a] == c;
      assert f[a] in lst && p(f[a]);
      var j :| 0 <= j < |lst| && lst[j] == f[a];
    }
  }

  /** `CGI_LOCATION` over the table `lst`: the crawler codes of the "cgi" embassies, in table order. */
  function CgiLocation(lst: seq<Embassy>): (r: seq<string>)
    ensures forall i :: 0 <= i < |lst| && lst[i].sys == "cgi" ==> lst[i].crawlerCode in r
    ensures Subseq(r, CrawlerCodes(lst))
  {
    var p := (e: Embassy) => e.sys == "cgi";
    var f := Filter(lst, p);
    assert forall i :: 0 <= i < |lst| && lst[i].sys == "cgi" ==> lst[i] in f;
    FilterSubseq(lst, p);
    CrawlerCodesSubseq(f, lst);
    CrawlerCodes(f)
  }

  /** In a table keyed by location, `CGI_LOCATION` holds only crawler codes of "cgi" embassies, none twice. */
  lemma CgiLocationExact(lst: seq<Embassy>)
    requires LocationsUnique(lst)
    ensures forall k :: 0 <= k < |CgiLocation(lst)| ==>
      exists i :: 0 <= i < |lst| && lst[i].sys == "cgi" && lst[i].crawlerCode == CgiLocation(lst)[k]
    ensures NoDup(CgiLocation(lst))
  {
    var p := (e: Embassy) => e.sys == "cgi";
    var f := Filter(lst, p);
    var r := CgiLocation(lst);
    assert r == CrawlerCodes(f);
    assert forall k :: 0 <= k < |f| ==> f[k] in lst && f[k].sys == "cgi";
    assert NoDup(lst);
    FilterNoDup(lst, p);
    forall k | 0 <= k < |r|
      ensures exists i :: 0 <= i < |lst| && lst[i].sys == "cgi" && lst[i].crawlerCode == r[k]
    {
      assert f[k] in lst && f[k].sys == "cgi";
      var i :| 0 <= i < |lst| && lst[i] == f[k];
      assert lst[i].crawlerCode == r[k];
    }
    forall a, b | 0 <= a < b < |r| ensures r[a] != r[b] {
      assert f[a] in lst && p(f[a]) && f[b] in lst && p(f[b]);
      var ia :| 0 <= ia < |lst| && lst[ia] == f[a];
      var ib :| 0 <= ib < |lst| && lst[ib] == f[b];
      assert Location(f[a]) == r[a] && Location(f[b]) == r[b];
    }
  }

  /** `AIS_LOCATION` over the table `lst`: the distinct crawler codes of the "ais" embassies. */
  function AisLocation(lst: seq<Embassy>): (r: seq<string>)
    ensures NoDup(r)
    ensures forall i :: 0 <= i < |lst| && lst[i].sys == "ais" ==> lst[i].crawlerCode in r
  {
    var f := Filter(lst, (e: Embassy) => e.sys == "ais");
    assert forall i :: 0 <= i < |lst| && lst[i].sys == "ais" ==> lst[i] in f;
    Dedup(CrawlerCodes(f))
  }

  /** Every entry of `AIS_LOCATION` is the crawler code of an "ais" embassy. */
  lemma AisLocationExact(lst: seq<Embassy>)
    ensures forall k :: 0 <= k < |AisLocation(lst)| ==>
      exists i :: 0 <= i < |lst| && lst[i].sys == "ais" && lst[i].crawlerCode == AisLocation(lst)[k]
  {
    var p := (e: Embassy) => e.sys == "ais";
    var f := Filter(lst, p);
    var column := CrawlerCodes(f);
    var r := AisLocation(lst);
    assert r == Dedup(column);
    forall k | 0 <= k < |r|
      ensures exists i :: 0 <= i < |lst| && lst[i].sys == "ais" && lst[i].crawlerCode == r[k]
    {
      assert r[k] in column;
      var a :| 0 <= a < |column| && column[a] == r[k];
      assert f[a] in lst && p(f[a]);
    }
  }

  /** Looking up the code of row `k` finds row `k`. */
  lemma GetEmbassyByCodeOfTableRow(k: nat)
    requires k < ROWS
    ensures GetEmbassyByCode(GetEmbassyLst(), Row(k).code) == Some(Row(k))
  {
    TableCodesUnique();
    ListIsTable(k);
    GetEmbassyByCodeOfRow(GetEmbassyLst(), k);
  }

  /** Every code of the domestic QQ filter names a domestic embassy of the table. */
  lemma DefaultFilterIsDomestic(c: string)
    requires c in DEFAULT_FILTER
    ensures GetEmbassyByCode(GetEmbassyLst(), c).Some?
    ensures GetEmbassyByCode(GetEmbassyLst(), c).value.region == "DOMESTIC"
  {
    if c == "bj" {
      assert Row(0).code == "bj" && Row(0).region == "DOMESTIC";
      GetEmbassyByCodeOfTableRow(0);
    } else if c == "sh" {
      assert Row(2).code == "sh" && Row(2).region == "DOMESTIC";
      GetEmbassyByCodeOfTableRow(2);
    } else if c == "gz" {
      assert Row(5).code == "gz" && Row(5).region == "DOMESTIC";
      GetEmbassyByCodeOfTableRow(5);
    } else if c == "sy" {
      assert Row(7).code == "sy" && Row(7).region == "DOMESTIC";
      GetEmbassyByCodeOfTableRow(7);
    } else if c == "bju" {
      assert Row(1).code == "bju" && Row(1).region == "DOMESTIC";
      GetEmbassyByCodeOfTableRow(1);
    } else if c == "shu" {
      assert Row(3).code == "shu" && Row(3).region == "DOMESTIC";
      GetEmbassyByCodeOfTableRow(3);
    } else if c == "gzu" {
      assert Row(6).code == "gzu" && Row(6).region == "DOMESTIC";
      GetEmbassyByCodeOfTableRow(6);
    } else {
      assert c == "syu";
      assert Row(8).code == "syu" && Row(8).region == "DOMESTIC";
      GetEmbassyByCodeOfTableRow(8);
    }
  }

  /** Every code of the non-domestic QQ filter names an embassy outside the domestic region. */
  lemma NondomesticFilterIsAbroad(c: string)
    requires c in NONDOMESTIC_DEFAULT_FILTER
    ensures GetEmbassyByCode(GetEmbassyLst(), c).Some?
    ensures GetEmbassyByCode(GetEmbassyLst(), c).value.region != "DOMESTIC"
  {
    if c == "sg" {
      assert Row(13).code == "sg" && Row(13).region == "SOUTH_EAST_ASIA";
      GetEmbassyByCodeOfTableRow(13);
    } else if c == "gye" {
      assert Row(54).code == "gye" && Row(54).region == "LATIN_AMERICA";
      GetEmbassyByCodeOfTableRow(54);
    } else {
      assert c == "lcy";
      assert Row(42).code == "lcy" && Row(42).region == "WEST_EUROPE";
      GetEmbassyByCodeOfTableRow(42);
    }
  }
}
