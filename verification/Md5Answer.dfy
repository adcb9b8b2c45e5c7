/** A known answer: the MD5 of the empty message in the test suite of RFC 1321 (appendix A.5), worked step by step. */
module Md5Answer {
  import opened Md5
  import opened Md5Rounds
  import opened Md5Words
  import opened Octets

  /** The one block of the padded empty message. */
  function Empty(): (b: seq<Word>)
    ensures |b| == 16
  {
    [0x80, 0, 0, 0, 0, 0, 0, 0, 0, 0, 0, 0, 0, 0, 0, 0]
  }

  lemma Next(i: nat, a: Word, b: Word, c: Word, d: Word, x: Word, t: Word, s: nat, n: Word)
    requires i < 64 && RfcSteps(INIT, Empty(), i) == Hash(a, b, c, d)
    requires Empty()[WordOf(i)] == x && SineOf(i) == t && ShiftOf(i) == s && Operation(Aux(i, b, c, d), a, b, x, t, s) == n
    ensures RfcSteps(INIT, Empty(), i + 1) == Hash(d, n, b, c)
  {
    hide Operation, Aux, WordOf, SineOf, ShiftOf;
  }

  lemma EmptyWords()
    ensures Empty()[0] == 0x80 && Empty()[1] == 0 && Empty()[2] == 0 && Empty()[3] == 0 && Empty()[4] == 0 && Empty()[5] == 0
    ensures Empty()[6] == 0 && Empty()[7] == 0 && Empty()[8] == 0 && Empty()[9] == 0 && Empty()[10] == 0 && Empty()[11] == 0
    ensures Empty()[12] == 0 && Empty()[13] == 0 && Empty()[14] == 0 && Empty()[15] == 0
  {
  }

  lemma Values1()
    ensures Operation(Aux(0, 0xefcdab89, 0x98badcfe, 0x10325476), 0x67452301, 0xefcdab89, 0x80, 0xd76aa478, 7) == 0xa5202774
    ensures Operation(Aux(1, 0xa5202774, 0xefcdab89, 0x98badcfe), 0x10325476, 0xa5202774, 0, 0xe8c7b756, 12) == 0xf59592dd
    ensures Operation(Aux(2, 0xf59592dd, 0xa5202774, 0xefcdab89), 0x98badcfe, 0xf59592dd, 0, 0x242070db, 17) == 0xe7f06b23
    ensures Operation(Aux(3, 0xe7f06b23, 0xf59592dd, 0xa5202774), 0xefcdab89, 0xe7f06b23, 0, 0xc1bdceee, 22) == 0x1b163203
    ensures Operation(Aux(4, 0x1b163203, 0xe7f06b23, 0xf59592dd), 0xa5202774, 0x1b163203, 0, 0xf57c0faf, 7) == 0x32033344
    ensures Operation(Aux(5, 0x32033344, 0x1b163203, 0xe7f06b23), 0xf59592dd, 0x32033344, 0, 0x4787c62a, 12) == 0x2f35d494
    ensures Operation(Aux(6, 0x2f35d494, 0x32033344, 0x1b163203), 0xe7f06b23, 0x2f35d494, 0, 0xa8304613, 17) == 0xf5b158db
    ensures Operation(Aux(7, 0xf5b158db, 0x2f35d494, 0x32033344), 0x1b163203, 0xf5b158db, 0, 0xfd469501, 22) == 0x9bc13ce9
    ensures Operation(Aux(8, 0x9bc13ce9, 0xf5b158db, 0x2f35d494), 0x32033344, 0x9bc13ce9, 0, 0x698098d8, 7) == 0x3893b991
    ensures Operation(Aux(9, 0x3893b991, 0x9bc13ce9, 0xf5b158db), 0x2f35d494, 0x3893b991, 0, 0x8b44f7af, 12) == 0xfce4a312
    ensures Operation(Aux(10, 0xfce4a312, 0x3893b991, 0x9bc13ce9), 0xf5b158db, 0xfce4a312, 0, 0xffff5bb1, 17) == 0xe1ef0576
    ensures Operation(Aux(11, 0xe1ef0576, 0xfce4a312, 0x3893b991), 0x9bc13ce9, 0xe1ef0576, 0, 0x895cd7be, 22) == 0x70768a29
    ensures Operation(Aux(12, 0x70768a29, 0xe1ef0576, 0xfce4a312), 0x3893b991, 0x70768a29, 0, 0x6b901122, 7) == 0xf56c7cf1
    ensures Operation(Aux(13, 0xf56c7cf1, 0x70768a29, 0xe1ef0576), 0xfce4a312, 0xf56c7cf1, 0, 0xfd987193, 12) == 0x374943a7
    ensures Operation(Aux(14, 0x374943a7, 0xf56c7cf1, 0x70768a29), 0xe1ef0576, 0x374943a7, 0, 0xa679438e, 17) == 0x5aa53f75
    ensures Operation(Aux(15, 0x5aa53f75, 0x374943a7, 0xf56c7cf1), 0x70768a29, 0x5aa53f75, 0, 0x49b40821, 22) == 0xd6819c6a
  {
  }

  lemma Answer1()
    requires RfcSteps(INIT, Empty(), 0) == Hash(0x67452301, 0xefcdab89, 0x98badcfe, 0x10325476)
    ensures RfcSteps(INIT, Empty(), 16) == Hash(0xf56c7cf1, 0xd6819c6a, 0x5aa53f75, 0x374943a7)
  {
    hide Operation, Aux, RfcSteps, WordOf, SineOf, ShiftOf, Empty;
    Indices1();
    Sines1();
    Values1();
    EmptyWords();
    Next(0, 0x67452301, 0xefcdab89, 0x98badcfe, 0x10325476, 0x80, 0xd76aa478, 7, 0xa5202774);
    Next(1, 0x10325476, 0xa5202774, 0xefcdab89, 0x98badcfe, 0, 0xe8c7b756, 12, 0xf59592dd);
    Next(2, 0x98badcfe, 0xf59592dd, 0xa5202774, 0xefcdab89, 0, 0x242070db, 17, 0xe7f06b23);
    Next(3, 0xefcdab89, 0xe7f06b23, 0xf59592dd, 0xa5202774, 0, 0xc1bdceee, 22, 0x1b163203);
    Next(4, 0xa5202774, 0x1b163203, 0xe7f06b23, 0xf59592dd, 0, 0xf57c0faf, 7, 0x32033344);
    Next(5, 0xf59592dd, 0x32033344, 0x1b163203, 0xe7f06b23, 0, 0x4787c62a, 12, 0x2f35d494);
    Next(6, 0xe7f06b23, 0x2f35d494, 0x32033344, 0x1b163203, 0, 0xa8304613, 17, 0xf5b158db);
    Next(7, 0x1b163203, 0xf5b158db, 0x2f35d494, 0x32033344, 0, 0xfd469501, 22, 0x9bc13ce9);
    Next(8, 0x32033344, 0x9bc13ce9, 0xf5b158db, 0x2f35d494, 0, 0x698098d8, 7, 0x3893b991);
    Next(9, 0x2f35d494, 0x3893b991, 0x9bc13ce9, 0xf5b158db, 0, 0x8b44f7af, 12, 0xfce4a312);
    Next(10, 0xf5b158db, 0xfce4a312, 0x3893b991, 0x9bc13ce9, 0, 0xffff5bb1, 17, 0xe1ef0576);
    Next(11, 0x9bc13ce9, 0xe1ef0576, 0xfce4a312, 0x3893b991, 0, 0x895cd7be, 22, 0x70768a29);
    Next(12, 0x3893b991, 0x70768a29, 0xe1ef0576, 0xfce4a312, 0, 0x6b901122, 7, 0xf56c7cf1);
    Next(13, 0xfce4a312, 0xf56c7cf1, 0x70768a29, 0xe1ef0576, 0, 0xfd987193, 12, 0x374943a7);
    Next(14, 0xe1ef0576, 0x374943a7, 0xf56c7cf1, 0x70768a29, 0, 0xa679438e, 17, 0x5aa53f75);
    Next(15, 0x70768a29, 0x5aa53f75, 0x374943a7, 0xf56c7cf1, 0, 0x49b40821, 22, 0xd6819c6a);
  }

  lemma Values2()
    ensures Operation(Aux(16, 0xd6819c6a, 0x5aa53f75, 0x374943a7), 0xf56c7cf1, 0xd6819c6a, 0, 0xf61e2562, 5) == 0x1c7d7513
    ensures Operation(Aux(17, 0x1c7d7513, 0xd6819c6a, 0x5aa53f75), 0x374943a7, 0x1c7d7513, 0, 0xc040b340, 9) == 0x7bd57a3a
    ensures Operation(Aux(18, 0x7bd57a3a, 0x1c7d7513, 0xd6819c6a), 0x5aa53f75, 0x7bd57a3a, 0, 0x265e5a51, 14) == 0xc095f13a
    ensures Operation(Aux(19, 0xc095f13a, 0x7bd57a3a, 0x1c7d7513), 0xd6819c6a, 0xc095f13a, 0x80, 0xe9b6c7aa, 20) == 0xbd782e17
    ensures Operation(Aux(20, 0xbd782e17, 0xc095f13a, 0x7bd57a3a), 0x1c7d7513, 0xbd782e17, 0, 0xd62f105d, 5) == 0x3d1e3e6c
    ensures Operation(Aux(21, 0x3d1e3e6c, 0xbd782e17, 0xc095f13a), 0x7bd57a3a, 0x3d1e3e6c, 0, 0x02441453, 9) == 0x68b7b3e3
    ensures Operation(Aux(22, 0x68b7b3e3, 0x3d1e3e6c, 0xbd782e17), 0xc095f13a, 0x68b7b3e3, 0, 0xd8a1e681, 14) == 0xeb41643e
    ensures Operation(Aux(23, 0xeb41643e, 0x68b7b3e3, 0x3d1e3e6c), 0xbd782e17, 0xeb41643e, 0, 0xe7d3fbc8, 20) == 0xe422531a
    ensures Operation(Aux(24, 0xe422531a, 0xeb41643e, 0x68b7b3e3), 0x3d1e3e6c, 0xe422531a, 0, 0x21e1cde6, 5) == 0x306ec122
    ensures Operation(Aux(25, 0x306ec122, 0xe422531a, 0xeb41643e), 0x68b7b3e3, 0x306ec122, 0, 0xc33707d6, 9) == 0xd28c77c2
    ensures Operation(Aux(26, 0xd28c77c2, 0x306ec122, 0xe422531a), 0xeb41643e, 0xd28c77c2, 0, 0xf4d50d87, 14) == 0xa3c663da
    ensures Operation(Aux(27, 0xa3c663da, 0xd28c77c2, 0x306ec122), 0xe422531a, 0xa3c663da, 0, 0x455a14ed, 20) == 0xa0572807
    ensures Operation(Aux(28, 0xa0572807, 0xa3c663da, 0xd28c77c2), 0x306ec122, 0xa0572807, 0, 0xa9e3e905, 5) == 0x13707036
    ensures Operation(Aux(29, 0x13707036, 0xa0572807, 0xa3c663da), 0xd28c77c2, 0x13707036, 0, 0xfcefa3f8, 9) == 0xae7813db
    ensures Operation(Aux(30, 0xae7813db, 0x13707036, 0xa0572807), 0xa3c663da, 0xae7813db, 0, 0x676f02d9, 14) == 0x1c31c384
    ensures Operation(Aux(31, 0x1c31c384, 0xae7813db, 0x13707036), 0xa0572807, 0x1c31c384, 0, 0x8d2a4c8a, 20) == 0xa2205f1f
  {
  }

  lemma Answer2()
    requires RfcSteps(INIT, Empty(), 16) == Hash(0xf56c7cf1, 0xd6819c6a, 0x5aa53f75, 0x374943a7)
    ensures RfcSteps(INIT, Empty(), 32) == Hash(0x13707036, 0xa2205f1f, 0x1c31c384, 0xae7813db)
  {
    hide Operation, Aux, RfcSteps, WordOf, SineOf, ShiftOf, Empty;
    Indices2();
    Sines2();
    Values2();
    EmptyWords();
    Next(16, 0xf56c7cf1, 0xd6819c6a, 0x5aa53f75, 0x374943a7, 0, 0xf61e2562, 5, 0x1c7d7513);
    Next(17, 0x374943a7, 0x1c7d7513, 0xd6819c6a, 0x5aa53f75, 0, 0xc040b340, 9, 0x7bd57a3a);
    Next(18, 0x5aa53f75, 0x7bd57a3a, 0x1c7d7513, 0xd6819c6a, 0, 0x265e5a51, 14, 0xc095f13a);
    Next(19, 0xd6819c6a, 0xc095f13a, 0x7bd57a3a, 0x1c7d7513, 0x80, 0xe9b6c7aa, 20, 0xbd782e17);
    Next(20, 0x1c7d7513, 0xbd782e17, 0xc095f13a, 0x7bd57a3a, 0, 0xd62f105d, 5, 0x3d1e3e6c);
    Next(21, 0x7bd57a3a, 0x3d1e3e6c, 0xbd782e17, 0xc095f13a, 0, 0x02441453, 9, 0x68b7b3e3);
    Next(22, 0xc095f13a, 0x68b7b3e3, 0x3d1e3e6c, 0xbd782e17, 0, 0xd8a1e681, 14, 0xeb41643e);
    Next(23, 0xbd782e17, 0xeb41643e, 0x68b7b3e3, 0x3d1e3e6c, 0, 0xe7d3fbc8, 20, 0xe422531a);
    Next(24, 0x3d1e3e6c, 0xe422531a, 0xeb41643e, 0x68b7b3e3, 0, 0x21e1cde6, 5, 0x306ec122);
    Next(25, 0x68b7b3e3, 0x306ec122, 0xe422531a, 0xeb41643e, 0, 0xc33707d6, 9, 0xd28c77c2);
    Next(26, 0xeb41643e, 0xd28c77c2, 0x306ec122, 0xe422531a, 0, 0xf4d50d87, 14, 0xa3c663da);
    Next(27, 0xe422531a, 0xa3c663da, 0xd28c77c2, 0x306ec122, 0, 0x455a14ed, 20, 0xa0572807);
    Next(28, 0x306ec122, 0xa0572807, 0xa3c663da, 0xd28c77c2, 0, 0xa9e3e905, 5, 0x13707036);
    Next(29, 0xd28c77c2, 0x13707036, 0xa0572807, 0xa3c663da, 0, 0xfcefa3f8, 9, 0xae7813db);
    Next(30, 0xa3c663da, 0xae7813db, 0x13707036, 0xa0572807, 0, 0x676f02d9, 14, 0x1c31c384);
    Next(31, 0xa0572807, 0x1c31c384, 0xae7813db, 0x13707036, 0, 0x8d2a4c8a, 20, 0xa2205f1f);
  }

  lemma Values3()
    ensures Operation(Aux(32, 0xa2205f1f, 0x1c31c384, 0xae7813db), 0x13707036, 0xa2205f1f, 0, 0xfffa3942, 4) == 0xdf63eaa1
    ensures Operation(Aux(33, 0xdf63eaa1, 0xa2205f1f, 0x1c31c384), 0xae7813db, 0xdf63eaa1, 0, 0x8771f681, 11) == 0xc3689f5b
    ensures Operation(Aux(34, 0xc3689f5b, 0xdf63eaa1, 0xa2205f1f), 0x1c31c384, 0xc3689f5b, 0, 0x6d9d6122, 16) == 0x12f3e755
    ensures Operation(Aux(35, 0x12f3e755, 0xc3689f5b, 0xdf63eaa1), 0xa2205f1f, 0x12f3e755, 0, 0xfde5380c, 23) == 0x004b6669
    ensures Operation(Aux(36, 0x004b6669, 0x12f3e755, 0xc3689f5b), 0xdf63eaa1, 0x004b6669, 0, 0xa4beea44, 4) == 0x5f7a9b2e
    ensures Operation(Aux(37, 0x5f7a9b2e, 0x004b6669, 0x12f3e755), 0xc3689f5b, 0x5f7a9b2e, 0, 0x4bdecfa9, 11) == 0xabc34e16
    ensures Operation(Aux(38, 0xabc34e16, 0x5f7a9b2e, 0x004b6669), 0x12f3e755, 0xabc34e16, 0, 0xf6bb4b60, 16) == 0x91ca4cb7
    ensures Operation(Aux(39, 0x91ca4cb7, 0xabc34e16, 0x5f7a9b2e), 0x004b6669, 0x91ca4cb7, 0, 0xbebfbc70, 23) == 0xc5dc8c15
    ensures Operation(Aux(40, 0xc5dc8c15, 0x91ca4cb7, 0xabc34e16), 0x5f7a9b2e, 0xc5dc8c15, 0, 0x289b7ec6, 4) == 0x4497169d
    ensures Operation(Aux(41, 0x4497169d, 0xc5dc8c15, 0x91ca4cb7), 0xabc34e16, 0x4497169d, 0x80, 0xeaa127fa, 11) == 0x76fd93d4
    ensures Operation(Aux(42, 0x76fd93d4, 0x4497169d, 0xc5dc8c15), 0x91ca4cb7, 0x76fd93d4, 0, 0xd4ef3085, 16) == 0xfd95f243
    ensures Operation(Aux(43, 0xfd95f243, 0x76fd93d4, 0x4497169d), 0xc5dc8c15, 0xfd95f243, 0, 0x04881d05, 23) == 0x0fe32453
    ensures Operation(Aux(44, 0x0fe32453, 0xfd95f243, 0x76fd93d4), 0x4497169d, 0x0fe32453, 0, 0xd9d4d039, 4) == 0x3f55edfd
    ensures Operation(Aux(45, 0x3f55edfd, 0x0fe32453, 0xfd95f243), 0x76fd93d4, 0x3f55edfd, 0, 0xe6db99e5, 11) == 0x22a31f54
    ensures Operation(Aux(46, 0x22a31f54, 0x3f55edfd, 0x0fe32453), 0xfd95f243, 0x22a31f54, 0, 0x1fa27cf8, 16) == 0x68d84ea2
    ensures Operation(Aux(47, 0x68d84ea2, 0x22a31f54, 0x3f55edfd), 0x0fe32453, 0x68d84ea2, 0, 0xc4ac5665, 23) == 0xca7d2dbd
  {
  }

  lemma Answer3()
    requires RfcSteps(INIT, Empty(), 32) == Hash(0x13707036, 0xa2205f1f, 0x1c31c384, 0xae7813db)
    ensures RfcSteps(INIT, Empty(), 48) == Hash(0x3f55edfd, 0xca7d2dbd, 0x68d84ea2, 0x22a31f54)
  {
    hide Operation, Aux, RfcSteps, WordOf, SineOf, ShiftOf, Empty;
    Indices3();
    Sines3();
    Values3();
    EmptyWords();
    Next(32, 0x13707036, 0xa2205f1f, 0x1c31c384, 0xae7813db, 0, 0xfffa3942, 4, 0xdf63eaa1);
    Next(33, 0xae7813db, 0xdf63eaa1, 0xa2205f1f, 0x1c31c384, 0, 0x8771f681, 11, 0xc3689f5b);
    Next(34, 0x1c31c384, 0xc3689f5b, 0xdf63eaa1, 0xa2205f1f, 0, 0x6d9d6122, 16, 0x12f3e755);
    Next(35, 0xa2205f1f, 0x12f3e755, 0xc3689f5b, 0xdf63eaa1, 0, 0xfde5380c, 23, 0x004b6669);
    Next(36, 0xdf63eaa1, 0x004b6669, 0x12f3e755, 0xc3689f5b, 0, 0xa4beea44, 4, 0x5f7a9b2e);
    Next(37, 0xc3689f5b, 0x5f7a9b2e, 0x004b6669, 0x12f3e755, 0, 0x4bdecfa9, 11, 0xabc34e16);
    Next(38, 0x12f3e755, 0xabc34e16, 0x5f7a9b2e, 0x004b6669, 0, 0xf6bb4b60, 16, 0x91ca4cb7);
    Next(39, 0x004b6669, 0x91ca4cb7, 0xabc34e16, 0x5f7a9b2e, 0, 0xbebfbc70, 23, 0xc5dc8c15);
    Next(40, 0x5f7a9b2e, 0xc5dc8c15, 0x91ca4cb7, 0xabc34e16, 0, 0x289b7ec6, 4, 0x4497169d);
    Next(41, 0xabc34e16, 0x4497169d, 0xc5dc8c15, 0x91ca4cb7, 0x80, 0xeaa127fa, 11, 0x76fd93d4);
    Next(42, 0x91ca4cb7, 0x76fd93d4, 0x4497169d, 0xc5dc8c15, 0, 0xd4ef3085, 16, 0xfd95f243);
    Next(43, 0xc5dc8c15, 0xfd95f243, 0x76fd93d4, 0x4497169d, 0, 0x04881d05, 23, 0x0fe32453);
    Next(44, 0x4497169d, 0x0fe32453, 0xfd95f243, 0x76fd93d4, 0, 0xd9d4d039, 4, 0x3f55edfd);
    Next(45, 0x76fd93d4, 0x3f55edfd, 0x0fe32453, 0xfd95f243, 0, 0xe6db99e5, 11, 0x22a31f54);
    Next(46, 0xfd95f243, 0x22a31f54, 0x3f55edfd, 0x0fe32453, 0, 0x1fa27cf8, 16, 0x68d84ea2);
    Next(47, 0x0fe32453, 0x68d84ea2, 0x22a31f54, 0x3f55edfd, 0, 0xc4ac5665, 23, 0xca7d2dbd);
  }

  lemma Values4()
    ensures Operation(Aux(48, 0xca7d2dbd, 0x68d84ea2, 0x22a31f54), 0x3f55edfd, 0xca7d2dbd, 0x80, 0xf4292244, 6) == 0x93aa2577
    ensures Operation(Aux(49, 0x93aa2577, 0xca7d2dbd, 0x68d84ea2), 0x22a31f54, 0x93aa2577, 0, 0x432aff97, 10) == 0x1688dc85
    ensures Operation(Aux(50, 0x1688dc85, 0x93aa2577, 0xca7d2dbd), 0x68d84ea2, 0x1688dc85, 0, 0xab9423a7, 15) == 0xcd85b8cb
    ensures Operation(Aux(51, 0xcd85b8cb, 0x1688dc85, 0x93aa2577), 0xca7d2dbd, 0xcd85b8cb, 0, 0xfc93a039, 21) == 0x561e0689
    ensures Operation(Aux(52, 0x561e0689, 0xcd85b8cb, 0x1688dc85), 0x93aa2577, 0x561e0689, 0, 0x655b59c3, 6) == 0x5625a114
    ensures Operation(Aux(53, 0x5625a114, 0x561e0689, 0xcd85b8cb), 0x1688dc85, 0x5625a114, 0, 0x8f0ccc92, 10) == 0x3450f42b
    ensures Operation(Aux(54, 0x3450f42b, 0x5625a114, 0x561e0689), 0xcd85b8cb, 0x3450f42b, 0, 0xffeff47d, 15) == 0x392ad0d0
    ensures Operation(Aux(55, 0x392ad0d0, 0x3450f42b, 0x5625a114), 0x561e0689, 0x392ad0d0, 0, 0x85845dd1, 21) == 0x1e77fa61
    ensures Operation(Aux(56, 0x1e77fa61, 0x392ad0d0, 0x3450f42b), 0x5625a114, 0x1e77fa61, 0, 0x6fa87e4f, 6) == 0x474a9c8c
    ensures Operation(Aux(57, 0x474a9c8c, 0x1e77fa61, 0x392ad0d0), 0x3450f42b, 0x474a9c8c, 0, 0xfe2ce6e0, 10) == 0xdfce00bc
    ensures Operation(Aux(58, 0xdfce00bc, 0x474a9c8c, 0x1e77fa61), 0x392ad0d0, 0xdfce00bc, 0, 0xa3014314, 15) == 0x36594b14
    ensures Operation(Aux(59, 0x36594b14, 0xdfce00bc, 0x474a9c8c), 0x1e77fa61, 0x36594b14, 0, 0x4e0811a1, 21) == 0x30130182
    ensures Operation(Aux(60, 0x30130182, 0x36594b14, 0xdfce00bc), 0x474a9c8c, 0x30130182, 0, 0xf7537e82, 6) == 0x7246fad3
    ensures Operation(Aux(61, 0x7246fad3, 0x30130182, 0x36594b14), 0xdfce00bc, 0x7246fad3, 0, 0xbd3af235, 10) == 0x6e10a476
    ensures Operation(Aux(62, 0x6e10a476, 0x7246fad3, 0x30130182), 0x36594b14, 0x6e10a476, 0, 0x2ad7d2bb, 15) == 0xff4ea3eb
    ensures Operation(Aux(63, 0xff4ea3eb, 0x6e10a476, 0x7246fad3), 0x30130182, 0xff4ea3eb, 0, 0xeb86d391, 21) == 0x14e45506
  {
  }

  lemma Answer4()
    requires RfcSteps(INIT, Empty(), 48) == Hash(0x3f55edfd, 0xca7d2dbd, 0x68d84ea2, 0x22a31f54)
    ensures RfcSteps(INIT, Empty(), 64) == Hash(0x7246fad3, 0x14e45506, 0xff4ea3eb, 0x6e10a476)
  {
    hide Operation, Aux, RfcSteps, WordOf, SineOf, ShiftOf, Empty;
    Indices4();
    Sines4();
    Values4();
    EmptyWords();
    Next(48, 0x3f55edfd, 0xca7d2dbd, 0x68d84ea2, 0x22a31f54, 0x80, 0xf4292244, 6, 0x93aa2577);
    Next(49, 0x22a31f54, 0x93aa2577, 0xca7d2dbd, 0x68d84ea2, 0, 0x432aff97, 10, 0x1688dc85);
    Next(50, 0x68d84ea2, 0x1688dc85, 0x93aa2577, 0xca7d2dbd, 0, 0xab9423a7, 15, 0xcd85b8cb);
    Next(51, 0xca7d2dbd, 0xcd85b8cb, 0x1688dc85, 0x93aa2577, 0, 0xfc93a039, 21, 0x561e0689);
    Next(52, 0x93aa2577, 0x561e0689, 0xcd85b8cb, 0x1688dc85, 0, 0x655b59c3, 6, 0x5625a114);
    Next(53, 0x1688dc85, 0x5625a114, 0x561e0689, 0xcd85b8cb, 0, 0x8f0ccc92, 10, 0x3450f42b);
    Next(54, 0xcd85b8cb, 0x3450f42b, 0x5625a114, 0x561e0689, 0, 0xffeff47d, 15, 0x392ad0d0);
    Next(55, 0x561e0689, 0x392ad0d0, 0x3450f42b, 0x5625a114, 0, 0x85845dd1, 21, 0x1e77fa61);
    Next(56, 0x5625a114, 0x1e77fa61, 0x392ad0d0, 0x3450f42b, 0, 0x6fa87e4f, 6, 0x474a9c8c);
    Next(57, 0x3450f42b, 0x474a9c8c, 0x1e77fa61, 0x392ad0d0, 0, 0xfe2ce6e0, 10, 0xdfce00bc);
    Next(58, 0x392ad0d0, 0xdfce00bc, 0x474a9c8c, 0x1e77fa61, 0, 0xa3014314, 15, 0x36594b14);
    Next(59, 0x1e77fa61, 0x36594b14, 0xdfce00bc, 0x474a9c8c, 0, 0x4e0811a1, 21, 0x30130182);
    Next(60, 0x474a9c8c, 0x30130182, 0x36594b14, 0xdfce00bc, 0, 0xf7537e82, 6, 0x7246fad3);
    Next(61, 0xdfce00bc, 0x7246fad3, 0x30130182, 0x36594b14, 0, 0xbd3af235, 10, 0x6e10a476);
    Next(62, 0x36594b14, 0x6e10a476, 0x7246fad3, 0x30130182, 0, 0x2ad7d2bb, 15, 0xff4ea3eb);
    Next(63, 0x30130182, 0xff4ea3eb, 0x6e10a476, 0x7246fad3, 0, 0xeb86d391, 21, 0x14e45506);
  }

  lemma PaddedEmpty()
    ensures |RfcPadded([])| == 64 && Words(RfcPadded([])) == Empty()
  {
    var p := RfcPadded([]);
    PaddedBytes(p);
    assert WordAt(p, 0) == 0x80;
    forall i | 1 <= i < 16 ensures WordAt(p, i) == 0 { }
  }

  lemma PaddedBytes(p: seq<Byte>)
    requires p == RfcPadded([])
    ensures |p| == 64 && p[0] == 0x80 && forall k {:trigger p[k]} :: 1 <= k < 64 ==> p[k] == 0
  {
  }

  /** The first line of the test suite: MD5 ("") = d41d8cd98f00b204e9800998ecf8427e. */
  lemma KnownAnswer()
    ensures Md5Of([]) == [0xd4, 0x1d, 0x8c, 0xd9, 0x8f, 0x00, 0xb2, 0x04, 0xe9, 0x80, 0x09, 0x98, 0xec, 0xf8, 0x42, 0x7e]
  {
    hide RfcSteps, RfcPadded;
    PaddedEmpty();
    NoSteps(INIT, Empty());
    Answer1();
    Answer2();
    Answer3();
    Answer4();
    FoldOne(INIT, RfcPadded([]));
  }
}
