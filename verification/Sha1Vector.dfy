/**
 A known answer of client/src/sha1.cpp: the digest of "abc" as the examples to FIPS 180-4 print it, computed
 step by step from the definitions.
 */
module Sha1Vector {
  import opened Sha1Spec
  import opened Sha1

  const ABC: Octets := [97, 98, 99]

  /** "abc" padded to one block. */
  const PADDED: Octets := [97, 98, 99, 0x80] + Zeros(59) + [24]

  const DIGEST: seq<Word> := [0xA9993E36, 0x4706816A, 0xBA3E2571, 0x7850C26C, 0x9CD0D89D]


  // ---------------------------------------------------------------- padding

  lemma {:induction false} ZeroDigits(k: nat)
    ensures BeDigits(0, k) == Zeros(k)
  {
    if k > 0 {
      ZeroDigits(k - 1);
      assert Zeros(k - 1) + [0] == Zeros(k);
    }
  }

  lemma {:induction false} PaddedIs()
    ensures |PADDED| == BLOCK && Pad(ABC) == PADDED
  {
    ZeroDigits(7);
    assert BeDigits(24, 8) == BeDigits(0, 7) + [24];
    assert Gap(3) == 52;
    hide BeDigits, Gap;
    assert Zeros(52) + Zeros(7) == Zeros(59);
    hide Zeros;
    assert ABC + [0x80] + Zeros(52) + (Zeros(7) + [24]) == ABC + [0x80] + (Zeros(52) + Zeros(7)) + [24];
    assert ABC + [0x80] == [97, 98, 99, 0x80];
  }

  // ---------------------------------------------------------------- the schedule

  lemma {:induction false} FirstWordIs(t: nat)
    requires t < 16
    ensures |PADDED| == BLOCK
    ensures W(PADDED, t) == if t == 0 then 0x61626380 else if t == 15 then 0x00000018 else 0
  {
    assert PADDED[4 * t] == if t == 0 then 97 else 0;
    assert PADDED[4 * t + 1] == if t == 0 then 98 else 0;
    assert PADDED[4 * t + 2] == if t == 0 then 99 else 0;
    assert PADDED[4 * t + 3] == if t == 0 then 0x80 else if t == 15 then 24 else 0;
    FirstWords(PADDED, t);
    hide W;
    if t == 0 { OctetsJoin(97, 98, 99, 0x80); } else { OctetsJoin(0, 0, 0, if t == 15 then 24 else 0); }
  }

  lemma {:induction false} OctetsJoin(a: bv8, b: bv8, c: bv8, d: bv8)
    ensures a == 97 && b == 98 && c == 99 && d == 0x80 ==> (a as Word << 24) | (b as Word << 16) | (c as Word << 8) | (d as Word) == 0x61626380
    ensures a == 0 && b == 0 && c == 0 ==> (a as Word << 24) | (b as Word << 16) | (c as Word << 8) | (d as Word) == d as Word
  {}

  /** Sixteen words further on, from the sixteen before. */
  lemma {:induction false} NextWordIs(t: nat, w3: Word, w8: Word, w14: Word, w16: Word)
    requires t >= 16 && |PADDED| == BLOCK
    requires W(PADDED, t - 3) == w3 && W(PADDED, t - 8) == w8 && W(PADDED, t - 14) == w14 && W(PADDED, t - 16) == w16
    ensures W(PADDED, t) == Rotl(Mixed(w3, w8, w14, w16), 1)
  {
    hide Rotl, Mixed;
  }

  ghost predicate Words0()
  {
    && |PADDED| == BLOCK
    && W(PADDED, 0) == 0x61626380 && W(PADDED, 1) == 0x00000000 && W(PADDED, 2) == 0x00000000 && W(PADDED, 3) == 0x00000000
    && W(PADDED, 4) == 0x00000000 && W(PADDED, 5) == 0x00000000 && W(PADDED, 6) == 0x00000000 && W(PADDED, 7) == 0x00000000
  }

  ghost predicate Words1()
  {
    && |PADDED| == BLOCK
    && W(PADDED, 8) == 0x00000000 && W(PADDED, 9) == 0x00000000 && W(PADDED, 10) == 0x00000000 && W(PADDED, 11) == 0x00000000
    && W(PADDED, 12) == 0x00000000 && W(PADDED, 13) == 0x00000000 && W(PADDED, 14) == 0x00000000 && W(PADDED, 15) == 0x00000018
  }

  ghost predicate Words2()
  {
    && |PADDED| == BLOCK
    && W(PADDED, 16) == 0xC2C4C700 && W(PADDED, 17) == 0x00000000 && W(PADDED, 18) == 0x00000030 && W(PADDED, 19) == 0x85898E01
    && W(PADDED, 20) == 0x00000000 && W(PADDED, 21) == 0x00000060 && W(PADDED, 22) == 0x0B131C03 && W(PADDED, 23) == 0x00000030
  }

  ghost predicate Words3()
  {
    && |PADDED| == BLOCK
    && W(PADDED, 24) == 0x85898EC1 && W(PADDED, 25) == 0x16263806 && W(PADDED, 26) == 0x00000000 && W(PADDED, 27) == 0x00000180
    && W(PADDED, 28) == 0x2C4C700C && W(PADDED, 29) == 0x000000F0 && W(PADDED, 30) == 0x93AFB507 && W(PADDED, 31) == 0x5898E048
  }

  ghost predicate Words4()
  {
    && |PADDED| == BLOCK
    && W(PADDED, 32) == 0x8E9A9202 && W(PADDED, 33) == 0x00000600 && W(PADDED, 34) == 0xB131C0F0 && W(PADDED, 35) == 0x16263BC6
    && W(PADDED, 36) == 0x4EBED41E && W(PADDED, 37) == 0x626380A1 && W(PADDED, 38) == 0x16263806 && W(PADDED, 39) == 0x000018C0
  }

  ghost predicate Words5()
  {
    && |PADDED| == BLOCK
    && W(PADDED, 40) == 0xD2E138C4 && W(PADDED, 41) == 0x00000F00 && W(PADDED, 42) == 0x3AFB5079 && W(PADDED, 43) == 0x898E04E5
    && W(PADDED, 44) == 0xE2BA3C2B && W(PADDED, 45) == 0x000060C0 && W(PADDED, 46) == 0x053A37CD && W(PADDED, 47) == 0x74458547
  }

  ghost predicate Words6()
  {
    && |PADDED| == BLOCK
    && W(PADDED, 48) == 0xDA9415ED && W(PADDED, 49) == 0x26380A16 && W(PADDED, 50) == 0x626383A1 && W(PADDED, 51) == 0x4EBF54DE
    && W(PADDED, 52) == 0x3835B44B && W(PADDED, 53) == 0x0000F600 && W(PADDED, 54) == 0x1E84C7A3 && W(PADDED, 55) == 0x98E04D98
  }

  ghost predicate Words7()
  {
    && |PADDED| == BLOCK
    && W(PADDED, 56) == 0x651D16A0 && W(PADDED, 57) == 0x62658CA1 && W(PADDED, 58) == 0x458544D6 && W(PADDED, 59) == 0x44584CB7
    && W(PADDED, 60) == 0x7BA06619 && W(PADDED, 61) == 0x6380AEA2 && W(PADDED, 62) == 0x0AE55269 && W(PADDED, 63) == 0x627B49A1
  }

  ghost predicate Words8()
  {
    && |PADDED| == BLOCK
    && W(PADDED, 64) == 0x7CD45C9D && W(PADDED, 65) == 0x000F0000 && W(PADDED, 66) == 0xFB50753A && W(PADDED, 67) == 0xEC6765E8
    && W(PADDED, 68) == 0xBA3C2BE2 && W(PADDED, 69) == 0x0060C000 && W(PADDED, 70) == 0x3A37CD05 && W(PADDED, 71) == 0x458546F4
  }

  ghost predicate Words9()
  {
    && |PADDED| == BLOCK
    && W(PADDED, 72) == 0xB8599DD6 && W(PADDED, 73) == 0x380A1A26 && W(PADDED, 74) == 0x01E02203 && W(PADDED, 75) == 0xE7CC3456
    && W(PADDED, 76) == 0xE6E60B69 && W(PADDED, 77) == 0x00F60A00 && W(PADDED, 78) == 0x5795EF4F && W(PADDED, 79) == 0x822E0879
  }

  lemma {:induction false} FirstWordsAre()
    ensures Words0() && Words1()
  {
    FirstWordIs(0);
    FirstWordIs(1);
    FirstWordIs(2);
    FirstWordIs(3);
    FirstWordIs(4);
    FirstWordIs(5);
    FirstWordIs(6);
    FirstWordIs(7);
    FirstWordIs(8);
    FirstWordIs(9);
    FirstWordIs(10);
    FirstWordIs(11);
    FirstWordIs(12);
    FirstWordIs(13);
    FirstWordIs(14);
    FirstWordIs(15);
    hide W;
  }

  lemma {:induction false} Words2Are()
    requires Words0() && Words1()
    ensures Words2()
  {
    hide W;
    NextWordIs(16, 0x00000000, 0x00000000, 0x00000000, 0x61626380);
    NextWordIs(17, 0x00000000, 0x00000000, 0x00000000, 0x00000000);
    NextWordIs(18, 0x00000018, 0x00000000, 0x00000000, 0x00000000);
    NextWordIs(19, 0xC2C4C700, 0x00000000, 0x00000000, 0x00000000);
    NextWordIs(20, 0x00000000, 0x00000000, 0x00000000, 0x00000000);
    NextWordIs(21, 0x00000030, 0x00000000, 0x00000000, 0x00000000);
    NextWordIs(22, 0x85898E01, 0x00000000, 0x00000000, 0x00000000);
    NextWordIs(23, 0x00000000, 0x00000018, 0x00000000, 0x00000000);
  }

  lemma {:induction false} Words3Are()
    requires Words1() && Words2()
    ensures Words3()
  {
    hide W;
    NextWordIs(24, 0x00000060, 0xC2C4C700, 0x00000000, 0x00000000);
    NextWordIs(25, 0x0B131C03, 0x00000000, 0x00000000, 0x00000000);
    NextWordIs(26, 0x00000030, 0x00000030, 0x00000000, 0x00000000);
    NextWordIs(27, 0x85898EC1, 0x85898E01, 0x00000000, 0x00000000);
    NextWordIs(28, 0x16263806, 0x00000000, 0x00000000, 0x00000000);
    NextWordIs(29, 0x00000000, 0x00000060, 0x00000018, 0x00000000);
    NextWordIs(30, 0x00000180, 0x0B131C03, 0xC2C4C700, 0x00000000);
    NextWordIs(31, 0x2C4C700C, 0x00000030, 0x00000000, 0x00000018);
  }

  lemma {:induction false} Words4Are()
    requires Words2() && Words3()
    ensures Words4()
  {
    hide W;
    NextWordIs(32, 0x000000F0, 0x85898EC1, 0x00000030, 0xC2C4C700);
    NextWordIs(33, 0x93AFB507, 0x16263806, 0x85898E01, 0x00000000);
    NextWordIs(34, 0x5898E048, 0x00000000, 0x00000000, 0x00000030);
    NextWordIs(35, 0x8E9A9202, 0x00000180, 0x00000060, 0x85898E01);
    NextWordIs(36, 0x00000600, 0x2C4C700C, 0x0B131C03, 0x00000000);
    NextWordIs(37, 0xB131C0F0, 0x000000F0, 0x00000030, 0x00000060);
    NextWordIs(38, 0x16263BC6, 0x93AFB507, 0x85898EC1, 0x0B131C03);
    NextWordIs(39, 0x4EBED41E, 0x5898E048, 0x16263806, 0x00000030);
  }

  lemma {:induction false} Words5Are()
    requires Words3() && Words4()
    ensures Words5()
  {
    hide W;
    NextWordIs(40, 0x626380A1, 0x8E9A9202, 0x00000000, 0x85898EC1);
    NextWordIs(41, 0x16263806, 0x00000600, 0x00000180, 0x16263806);
    NextWordIs(42, 0x000018C0, 0xB131C0F0, 0x2C4C700C, 0x00000000);
    NextWordIs(43, 0xD2E138C4, 0x16263BC6, 0x000000F0, 0x00000180);
    NextWordIs(44, 0x00000F00, 0x4EBED41E, 0x93AFB507, 0x2C4C700C);
    NextWordIs(45, 0x3AFB5079, 0x626380A1, 0x5898E048, 0x000000F0);
    NextWordIs(46, 0x898E04E5, 0x16263806, 0x8E9A9202, 0x93AFB507);
    NextWordIs(47, 0xE2BA3C2B, 0x000018C0, 0x00000600, 0x5898E048);
  }

  lemma {:induction false} Words6Are()
    requires Words4() && Words5()
    ensures Words6()
  {
    hide W;
    NextWordIs(48, 0x000060C0, 0xD2E138C4, 0xB131C0F0, 0x8E9A9202);
    NextWordIs(49, 0x053A37CD, 0x00000F00, 0x16263BC6, 0x00000600);
    NextWordIs(50, 0x74458547, 0x3AFB5079, 0x4EBED41E, 0xB131C0F0);
    NextWordIs(51, 0xDA9415ED, 0x898E04E5, 0x626380A1, 0x16263BC6);
    NextWordIs(52, 0x26380A16, 0xE2BA3C2B, 0x16263806, 0x4EBED41E);
    NextWordIs(53, 0x626383A1, 0x000060C0, 0x000018C0, 0x626380A1);
    NextWordIs(54, 0x4EBF54DE, 0x053A37CD, 0xD2E138C4, 0x16263806);
    NextWordIs(55, 0x3835B44B, 0x74458547, 0x00000F00, 0x000018C0);
  }

  lemma {:induction false} Words7Are()
    requires Words5() && Words6()
    ensures Words7()
  {
    hide W;
    NextWordIs(56, 0x0000F600, 0xDA9415ED, 0x3AFB5079, 0xD2E138C4);
    NextWordIs(57, 0x1E84C7A3, 0x26380A16, 0x898E04E5, 0x00000F00);
    NextWordIs(58, 0x98E04D98, 0x626383A1, 0xE2BA3C2B, 0x3AFB5079);
    NextWordIs(59, 0x651D16A0, 0x4EBF54DE, 0x000060C0, 0x898E04E5);
    NextWordIs(60, 0x62658CA1, 0x3835B44B, 0x053A37CD, 0xE2BA3C2B);
    NextWordIs(61, 0x458544D6, 0x0000F600, 0x74458547, 0x000060C0);
    NextWordIs(62, 0x44584CB7, 0x1E84C7A3, 0xDA9415ED, 0x053A37CD);
    NextWordIs(63, 0x7BA06619, 0x98E04D98, 0x26380A16, 0x74458547);
  }

  lemma {:induction false} Words8Are()
    requires Words6() && Words7()
    ensures Words8()
  {
    hide W;
    NextWordIs(64, 0x6380AEA2, 0x651D16A0, 0x626383A1, 0xDA9415ED);
    NextWordIs(65, 0x0AE55269, 0x62658CA1, 0x4EBF54DE, 0x26380A16);
    NextWordIs(66, 0x627B49A1, 0x458544D6, 0x3835B44B, 0x626383A1);
    NextWordIs(67, 0x7CD45C9D, 0x44584CB7, 0x0000F600, 0x4EBF54DE);
    NextWordIs(68, 0x000F0000, 0x7BA06619, 0x1E84C7A3, 0x3835B44B);
    NextWordIs(69, 0xFB50753A, 0x6380AEA2, 0x98E04D98, 0x0000F600);
    NextWordIs(70, 0xEC6765E8, 0x0AE55269, 0x651D16A0, 0x1E84C7A3);
    NextWordIs(71, 0xBA3C2BE2, 0x627B49A1, 0x62658CA1, 0x98E04D98);
  }

  lemma {:induction false} Words9Are()
    requires Words7() && Words8()
    ensures Words9()
  {
    hide W;
    NextWordIs(72, 0x0060C000, 0x7CD45C9D, 0x458544D6, 0x651D16A0);
    NextWordIs(73, 0x3A37CD05, 0x000F0000, 0x44584CB7, 0x62658CA1);
    NextWordIs(74, 0x458546F4, 0xFB50753A, 0x7BA06619, 0x458544D6);
    NextWordIs(75, 0xB8599DD6, 0xEC6765E8, 0x6380AEA2, 0x44584CB7);
    NextWordIs(76, 0x380A1A26, 0xBA3C2BE2, 0x0AE55269, 0x7BA06619);
    NextWordIs(77, 0x01E02203, 0x0060C000, 0x627B49A1, 0x6380AEA2);
    NextWordIs(78, 0xE7CC3456, 0x3A37CD05, 0x7CD45C9D, 0x0AE55269);
    NextWordIs(79, 0xE6E60B69, 0x458546F4, 0x000F0000, 0x627B49A1);
  }

  // ---------------------------------------------------------------- the rounds

  /** The working variables after some rounds. */
  ghost predicate At(t: nat, v: Working)
  {
    |PADDED| == BLOCK && Rounds(INITIAL, PADDED, t) == v
  }

  /** One more round. */
  lemma {:induction false} RoundIs(t: nat, v: Working, w: Word, next: Word)
    requires t < 80 && At(t, v) && W(PADDED, t) == w && Sum(Rotl(v.a, 5), F(t, v.b, v.c, v.d), v.e, K(t), w) == next
    ensures At(t + 1, Working(next, v.a, Rotl(v.b, 30), v.c, v.d))
  {
    hide Rotl, F, K, W, Sum;
  }

  lemma {:induction false} Rounds0(t: nat)
    requires t == 0 && Words0() && At(t, Working(0x67452301, 0xEFCDAB89, 0x98BADCFE, 0x10325476, 0xC3D2E1F0))
    ensures At(t + 4, Working(0xCDD8E11B, 0xA1390F08, 0x626414DB, 0xC045BF0C, 0x59D148C0))
  {
    hide W, At;
    RoundIs(t, Working(0x67452301, 0xEFCDAB89, 0x98BADCFE, 0x10325476, 0xC3D2E1F0), 0x61626380, 0x0116FC33);
    RoundIs(t + 1, Working(0x0116FC33, 0x67452301, 0x7BF36AE2, 0x98BADCFE, 0x10325476), 0x00000000, 0x8990536D);
    RoundIs(t + 2, Working(0x8990536D, 0x0116FC33, 0x59D148C0, 0x7BF36AE2, 0x98BADCFE), 0x00000000, 0xA1390F08);
    RoundIs(t + 3, Working(0xA1390F08, 0x8990536D, 0xC045BF0C, 0x59D148C0, 0x7BF36AE2), 0x00000000, 0xCDD8E11B);
  }

  lemma {:induction false} Rounds4(t: nat)
    requires t == 4 && Words0() && At(t, Working(0xCDD8E11B, 0xA1390F08, 0x626414DB, 0xC045BF0C, 0x59D148C0))
    ensures At(t + 4, Working(0x9E8C07D4, 0x993E30C1, 0x0FF1F290, 0xB3F52677, 0xF3763846))
  {
    hide W, At;
    RoundIs(t, Working(0xCDD8E11B, 0xA1390F08, 0x626414DB, 0xC045BF0C, 0x59D148C0), 0x00000000, 0xCFD499DE);
    RoundIs(t + 1, Working(0xCFD499DE, 0xCDD8E11B, 0x284E43C2, 0x626414DB, 0xC045BF0C), 0x00000000, 0x3FC7CA40);
    RoundIs(t + 2, Working(0x3FC7CA40, 0xCFD499DE, 0xF3763846, 0x284E43C2, 0x626414DB), 0x00000000, 0x993E30C1);
    RoundIs(t + 3, Working(0x993E30C1, 0x3FC7CA40, 0xB3F52677, 0xF3763846, 0x284E43C2), 0x00000000, 0x9E8C07D4);
  }

  lemma {:induction false} Rounds8(t: nat)
    requires t == 8 && Words1() && At(t, Working(0x9E8C07D4, 0x993E30C1, 0x0FF1F290, 0xB3F52677, 0xF3763846))
    ensures At(t + 4, Working(0x63188FE4, 0xFBDA9E89, 0x60D47E4A, 0x12DAB8CA, 0x27A301F5))
  {
    hide W, At;
    RoundIs(t, Working(0x9E8C07D4, 0x993E30C1, 0x0FF1F290, 0xB3F52677, 0xF3763846), 0x00000000, 0x4B6AE328);
    RoundIs(t + 1, Working(0x4B6AE328, 0x9E8C07D4, 0x664F8C30, 0x0FF1F290, 0xB3F52677), 0x00000000, 0x8351F929);
    RoundIs(t + 2, Working(0x8351F929, 0x4B6AE328, 0x27A301F5, 0x664F8C30, 0x0FF1F290), 0x00000000, 0xFBDA9E89);
    RoundIs(t + 3, Working(0xFBDA9E89, 0x8351F929, 0x12DAB8CA, 0x27A301F5, 0x664F8C30), 0x00000000, 0x63188FE4);
  }

  lemma {:induction false} Rounds12(t: nat)
    requires t == 12 && Words1() && At(t, Working(0x63188FE4, 0xFBDA9E89, 0x60D47E4A, 0x12DAB8CA, 0x27A301F5))
    ensures At(t + 4, Working(0x20BDD62F, 0x196BEE77, 0x644A3DA5, 0x1181ED99, 0x18C623F9))
  {
    hide W, At;
    RoundIs(t, Working(0x63188FE4, 0xFBDA9E89, 0x60D47E4A, 0x12DAB8CA, 0x27A301F5), 0x00000000, 0x4607B664);
    RoundIs(t + 1, Working(0x4607B664, 0x63188FE4, 0x7EF6A7A2, 0x60D47E4A, 0x12DAB8CA), 0x00000000, 0x9128F695);
    RoundIs(t + 2, Working(0x9128F695, 0x4607B664, 0x18C623F9, 0x7EF6A7A2, 0x60D47E4A), 0x00000000, 0x196BEE77);
    RoundIs(t + 3, Working(0x196BEE77, 0x9128F695, 0x1181ED99, 0x18C623F9, 0x7EF6A7A2), 0x00000018, 0x20BDD62F);
  }

  lemma {:induction false} Rounds16(t: nat)
    requires t == 16 && Words2() && At(t, Working(0x20BDD62F, 0x196BEE77, 0x644A3DA5, 0x1181ED99, 0x18C623F9))
    ensures At(t + 4, Working(0xFD9E1D7D, 0xDC64901D, 0x20AA99CA, 0xD3A49608, 0xC82F758B))
  {
    hide W, At;
    RoundIs(t, Working(0x20BDD62F, 0x196BEE77, 0x644A3DA5, 0x1181ED99, 0x18C623F9), 0xC2C4C700, 0x4E925823);
    RoundIs(t + 1, Working(0x4E925823, 0x20BDD62F, 0xC65AFB9D, 0x644A3DA5, 0x1181ED99), 0x00000000, 0x82AA6728);
    RoundIs(t + 2, Working(0x82AA6728, 0x4E925823, 0xC82F758B, 0xC65AFB9D, 0x644A3DA5), 0x00000030, 0xDC64901D);
    RoundIs(t + 3, Working(0xDC64901D, 0x82AA6728, 0xD3A49608, 0xC82F758B, 0xC65AFB9D), 0x85898E01, 0xFD9E1D7D);
  }

  lemma {:induction false} Rounds20(t: nat)
    requires t == 20 && Words2() && At(t, Working(0xFD9E1D7D, 0xDC64901D, 0x20AA99CA, 0xD3A49608, 0xC82F758B))
    ensures At(t + 4, Working(0xD541F12D, 0x21283486, 0x0CE88EFF, 0x868DEC32, 0x7F67875F))
  {
    hide W, At;
    RoundIs(t, Working(0xFD9E1D7D, 0xDC64901D, 0x20AA99CA, 0xD3A49608, 0xC82F758B), 0x00000000, 0x1A37B0CA);
    RoundIs(t + 1, Working(0x1A37B0CA, 0xFD9E1D7D, 0x77192407, 0x20AA99CA, 0xD3A49608), 0x00000060, 0x33A23BFC);
    RoundIs(t + 2, Working(0x33A23BFC, 0x1A37B0CA, 0x7F67875F, 0x77192407, 0x20AA99CA), 0x0B131C03, 0x21283486);
    RoundIs(t + 3, Working(0x21283486, 0x33A23BFC, 0x868DEC32, 0x7F67875F, 0x77192407), 0x00000030, 0xD541F12D);
  }

  lemma {:induction false} Rounds24(t: nat)
    requires t == 24 && Words3() && At(t, Working(0xD541F12D, 0x21283486, 0x0CE88EFF, 0x868DEC32, 0x7F67875F))
    ensures At(t + 4, Working(0x4AA84D97, 0xBE35FBD5, 0x12104EE9, 0xB1D59F71, 0x75507C4B))
  {
    hide W, At;
    RoundIs(t, Working(0xD541F12D, 0x21283486, 0x0CE88EFF, 0x868DEC32, 0x7F67875F), 0x85898EC1, 0xC7567DC6);
    RoundIs(t + 1, Working(0xC7567DC6, 0xD541F12D, 0x884A0D21, 0x0CE88EFF, 0x868DEC32), 0x16263806, 0x48413BA4);
    RoundIs(t + 2, Working(0x48413BA4, 0xC7567DC6, 0x75507C4B, 0x884A0D21, 0x0CE88EFF), 0x00000000, 0xBE35FBD5);
    RoundIs(t + 3, Working(0xBE35FBD5, 0x48413BA4, 0xB1D59F71, 0x75507C4B, 0x884A0D21), 0x00000180, 0x4AA84D97);
  }

  lemma {:induction false} Rounds28(t: nat)
    requires t == 28 && Words3() && At(t, Working(0x4AA84D97, 0xBE35FBD5, 0x12104EE9, 0xB1D59F71, 0x75507C4B))
    ensures At(t + 4, Working(0x3B845D33, 0x1267B407, 0x717EEBD7, 0xA0DC2D4B, 0xD2AA1365))
  {
    hide W, At;
    RoundIs(t, Working(0x4AA84D97, 0xBE35FBD5, 0x12104EE9, 0xB1D59F71, 0x75507C4B), 0x2C4C700C, 0x8370B52E);
    RoundIs(t + 1, Working(0x8370B52E, 0x4AA84D97, 0x6F8D7EF5, 0x12104EE9, 0xB1D59F71), 0x000000F0, 0xC5FBAF5D);
    RoundIs(t + 2, Working(0xC5FBAF5D, 0x8370B52E, 0xD2AA1365, 0x6F8D7EF5, 0x12104EE9), 0x93AFB507, 0x1267B407);
    RoundIs(t + 3, Working(0x1267B407, 0xC5FBAF5D, 0xA0DC2D4B, 0xD2AA1365, 0x6F8D7EF5), 0x5898E048, 0x3B845D33);
  }

  lemma {:induction false} Rounds32(t: nat)
    requires t == 32 && Words4() && At(t, Working(0x3B845D33, 0x1267B407, 0x717EEBD7, 0xA0DC2D4B, 0xD2AA1365))
    ensures At(t + 4, Working(0xDCBBB0CB, 0x21796AD4, 0x4B03AF04, 0x811BEA82, 0xCEE1174C))
  {
    hide W, At;
    RoundIs(t, Working(0x3B845D33, 0x1267B407, 0x717EEBD7, 0xA0DC2D4B, 0xD2AA1365), 0x8E9A9202, 0x046FAA0A);
    RoundIs(t + 1, Working(0x046FAA0A, 0x3B845D33, 0xC499ED01, 0x717EEBD7, 0xA0DC2D4B), 0x00000600, 0x2C0EBC11);
    RoundIs(t + 2, Working(0x2C0EBC11, 0x046FAA0A, 0xCEE1174C, 0xC499ED01, 0x717EEBD7), 0xB131C0F0, 0x21796AD4);
    RoundIs(t + 3, Working(0x21796AD4, 0x2C0EBC11, 0x811BEA82, 0xCEE1174C, 0xC499ED01), 0x16263BC6, 0xDCBBB0CB);
  }

  lemma {:induction false} Rounds36(t: nat)
    requires t == 36 && Words4() && At(t, Working(0xDCBBB0CB, 0x21796AD4, 0x4B03AF04, 0x811BEA82, 0xCEE1174C))
    ensures At(t + 4, Working(0x32DE1CBA, 0x4C986405, 0xF718E5CF, 0x03D447F6, 0xF72EEC32))
  {
    hide W, At;
    RoundIs(t, Working(0xDCBBB0CB, 0x21796AD4, 0x4B03AF04, 0x811BEA82, 0xCEE1174C), 0x4EBED41E, 0x0F511FD8);
    RoundIs(t + 1, Working(0x0F511FD8, 0xDCBBB0CB, 0x085E5AB5, 0x4B03AF04, 0x811BEA82), 0x626380A1, 0xDC63973F);
    RoundIs(t + 2, Working(0xDC63973F, 0x0F511FD8, 0xF72EEC32, 0x085E5AB5, 0x4B03AF04), 0x16263806, 0x4C986405);
    RoundIs(t + 3, Working(0x4C986405, 0xDC63973F, 0x03D447F6, 0xF72EEC32, 0x085E5AB5), 0x000018C0, 0x32DE1CBA);
  }

  lemma {:induction false} Rounds40(t: nat)
    requires t == 40 && Words5() && At(t, Working(0x32DE1CBA, 0x4C986405, 0xF718E5CF, 0x03D447F6, 0xF72EEC32))
    ensures At(t + 4, Working(0xEE1B1AAF, 0x7F193DC5, 0x25C28357, 0xFF21F7B7, 0x8CB7872E))
  {
    hide W, At;
    RoundIs(t, Working(0x32DE1CBA, 0x4C986405, 0xF718E5CF, 0x03D447F6, 0xF72EEC32), 0xD2E138C4, 0xFC87DEDF);
    RoundIs(t + 1, Working(0xFC87DEDF, 0x32DE1CBA, 0x53261901, 0xF718E5CF, 0x03D447F6), 0x00000F00, 0x970A0D5C);
    RoundIs(t + 2, Working(0x970A0D5C, 0xFC87DEDF, 0x8CB7872E, 0x53261901, 0xF718E5CF), 0x3AFB5079, 0x7F193DC5);
    RoundIs(t + 3, Working(0x7F193DC5, 0x970A0D5C, 0xFF21F7B7, 0x8CB7872E, 0x53261901), 0x898E04E5, 0xEE1B1AAF);
  }

  lemma {:induction false} Rounds44(t: nat)
    requires t == 44 && Words5() && At(t, Working(0xEE1B1AAF, 0x7F193DC5, 0x25C28357, 0xFF21F7B7, 0x8CB7872E))
    ensures At(t + 4, Working(0xBEAD02CA, 0xA01B846C, 0x8714787C, 0x503CA382, 0xFB86C6AB))
  {
    hide W, At;
    RoundIs(t, Working(0xEE1B1AAF, 0x7F193DC5, 0x25C28357, 0xFF21F7B7, 0x8CB7872E), 0xE2BA3C2B, 0x40F28E09);
    RoundIs(t + 1, Working(0x40F28E09, 0xEE1B1AAF, 0x5FC64F71, 0x25C28357, 0xFF21F7B7), 0x000060C0, 0x1C51E1F2);
    RoundIs(t + 2, Working(0x1C51E1F2, 0x40F28E09, 0xFB86C6AB, 0x5FC64F71, 0x25C28357), 0x053A37CD, 0xA01B846C);
    RoundIs(t + 3, Working(0xA01B846C, 0x1C51E1F2, 0x503CA382, 0xFB86C6AB, 0x5FC64F71), 0x74458547, 0xBEAD02CA);
  }

  lemma {:induction false} Rounds48(t: nat)
    requires t == 48 && Words6() && At(t, Working(0xBEAD02CA, 0xA01B846C, 0x8714787C, 0x503CA382, 0xFB86C6AB))
    ensures At(t + 4, Working(0x3847AD66, 0x641DB2CE, 0x4481CC71, 0xEEBCE4CD, 0xAFAB40B2))
  {
    hide W, At;
    RoundIs(t, Working(0xBEAD02CA, 0xA01B846C, 0x8714787C, 0x503CA382, 0xFB86C6AB), 0xDA9415ED, 0xBAF39337);
    RoundIs(t + 1, Working(0xBAF39337, 0xBEAD02CA, 0x2806E11B, 0x8714787C, 0x503CA382), 0x26380A16, 0x120731C5);
    RoundIs(t + 2, Working(0x120731C5, 0xBAF39337, 0xAFAB40B2, 0x2806E11B, 0x8714787C), 0x626383A1, 0x641DB2CE);
    RoundIs(t + 3, Working(0x641DB2CE, 0x120731C5, 0xEEBCE4CD, 0xAFAB40B2, 0x2806E11B), 0x4EBF54DE, 0x3847AD66);
  }

  lemma {:induction false} Rounds52(t: nat)
    requires t == 52 && Words6() && At(t, Working(0x3847AD66, 0x641DB2CE, 0x4481CC71, 0xEEBCE4CD, 0xAFAB40B2))
    ensures At(t + 4, Working(0x5E6456AF, 0x7B71F76D, 0x09FA7C76, 0x792410DB, 0x8E11EB59))
  {
    hide W, At;
    RoundIs(t, Working(0x3847AD66, 0x641DB2CE, 0x4481CC71, 0xEEBCE4CD, 0xAFAB40B2), 0x3835B44B, 0xE490436D);
    RoundIs(t + 1, Working(0xE490436D, 0x3847AD66, 0x99076CB3, 0x4481CC71, 0xEEBCE4CD), 0x0000F600, 0x27E9F1D8);
    RoundIs(t + 2, Working(0x27E9F1D8, 0xE490436D, 0x8E11EB59, 0x99076CB3, 0x4481CC71), 0x1E84C7A3, 0x7B71F76D);
    RoundIs(t + 3, Working(0x7B71F76D, 0x27E9F1D8, 0x792410DB, 0x8E11EB59, 0x99076CB3), 0x98E04D98, 0x5E6456AF);
  }

  lemma {:induction false} Rounds56(t: nat)
    requires t == 56 && Words7() && At(t, Working(0x5E6456AF, 0x7B71F76D, 0x09FA7C76, 0x792410DB, 0x8E11EB59))
    ensures At(t + 4, Working(0x3F52DE5A, 0x09D785FD, 0x3498BFD4, 0xF211824F, 0xD79915AB))
  {
    hide W, At;
    RoundIs(t, Working(0x5E6456AF, 0x7B71F76D, 0x09FA7C76, 0x792410DB, 0x8E11EB59), 0x651D16A0, 0xC846093F);
    RoundIs(t + 1, Working(0xC846093F, 0x5E6456AF, 0x5EDC7DDB, 0x09FA7C76, 0x792410DB), 0x62658CA1, 0xD262FF50);
    RoundIs(t + 2, Working(0xD262FF50, 0xC846093F, 0xD79915AB, 0x5EDC7DDB, 0x09FA7C76), 0x458544D6, 0x09D785FD);
    RoundIs(t + 3, Working(0x09D785FD, 0xD262FF50, 0xF211824F, 0xD79915AB, 0x5EDC7DDB), 0x44584CB7, 0x3F52DE5A);
  }

  lemma {:induction false} Rounds60(t: nat)
    requires t == 60 && Words7() && At(t, Working(0x3F52DE5A, 0x09D785FD, 0x3498BFD4, 0xF211824F, 0xD79915AB))
    ensures At(t + 4, Working(0x6B61C9E1, 0xB66C020B, 0x9523272C, 0xF5D5B051, 0x8FD4B796))
  {
    hide W, At;
    RoundIs(t, Working(0x3F52DE5A, 0x09D785FD, 0x3498BFD4, 0xF211824F, 0xD79915AB), 0x7BA06619, 0xD756C147);
    RoundIs(t + 1, Working(0xD756C147, 0x3F52DE5A, 0x4275E17F, 0x3498BFD4, 0xF211824F), 0x6380AEA2, 0x548C9CB2);
    RoundIs(t + 2, Working(0x548C9CB2, 0xD756C147, 0x8FD4B796, 0x4275E17F, 0x3498BFD4), 0x0AE55269, 0xB66C020B);
    RoundIs(t + 3, Working(0xB66C020B, 0x548C9CB2, 0xF5D5B051, 0x8FD4B796, 0x4275E17F), 0x627B49A1, 0x6B61C9E1);
  }

  lemma {:induction false} Rounds64(t: nat)
    requires t == 64 && Words8() && At(t, Working(0x6B61C9E1, 0xB66C020B, 0x9523272C, 0xF5D5B051, 0x8FD4B796))
    ensures At(t + 4, Working(0x78DD4D2B, 0x0C3DF2B4, 0x4405957E, 0x0677E9EB, 0x5AD87278))
  {
    hide W, At;
    RoundIs(t, Working(0x6B61C9E1, 0xB66C020B, 0x9523272C, 0xF5D5B051, 0x8FD4B796), 0x7CD45C9D, 0x19DFA7AC);
    RoundIs(t + 1, Working(0x19DFA7AC, 0x6B61C9E1, 0xED9B0082, 0x9523272C, 0xF5D5B051), 0x000F0000, 0x101655F9);
    RoundIs(t + 2, Working(0x101655F9, 0x19DFA7AC, 0x5AD87278, 0xED9B0082, 0x9523272C), 0xFB50753A, 0x0C3DF2B4);
    RoundIs(t + 3, Working(0x0C3DF2B4, 0x101655F9, 0x0677E9EB, 0x5AD87278, 0xED9B0082), 0xEC6765E8, 0x78DD4D2B);
  }

  lemma {:induction false} Rounds68(t: nat)
    requires t == 68 && Words8() && At(t, Working(0x78DD4D2B, 0x0C3DF2B4, 0x4405957E, 0x0677E9EB, 0x5AD87278))
    ensures At(t + 4, Working(0x39859DE7, 0xC199F8C7, 0x8FC96230, 0x125C24F0, 0xDE37534A))
  {
    hide W, At;
    RoundIs(t, Working(0x78DD4D2B, 0x0C3DF2B4, 0x4405957E, 0x0677E9EB, 0x5AD87278), 0xBA3C2BE2, 0x497093C0);
    RoundIs(t + 1, Working(0x497093C0, 0x78DD4D2B, 0x030F7CAD, 0x4405957E, 0x0677E9EB), 0x0060C000, 0x3F2588C2);
    RoundIs(t + 2, Working(0x3F2588C2, 0x497093C0, 0xDE37534A, 0x030F7CAD, 0x4405957E), 0x3A37CD05, 0xC199F8C7);
    RoundIs(t + 3, Working(0xC199F8C7, 0x3F2588C2, 0x125C24F0, 0xDE37534A, 0x030F7CAD), 0x458546F4, 0x39859DE7);
  }

  lemma {:induction false} Rounds72(t: nat)
    requires t == 72 && Words9() && At(t, Working(0x39859DE7, 0xC199F8C7, 0x8FC96230, 0x125C24F0, 0xDE37534A))
    ensures At(t + 4, Working(0x63F7DAB7, 0x5EE76897, 0xC45E4FDB, 0x3B6D0B79, 0xCE616779))
  {
    hide W, At;
    RoundIs(t, Working(0x39859DE7, 0xC199F8C7, 0x8FC96230, 0x125C24F0, 0xDE37534A), 0xB8599DD6, 0xEDB42DE4);
    RoundIs(t + 1, Working(0xEDB42DE4, 0x39859DE7, 0xF0667E31, 0x8FC96230, 0x125C24F0), 0x380A1A26, 0x11793F6F);
    RoundIs(t + 2, Working(0x11793F6F, 0xEDB42DE4, 0xCE616779, 0xF0667E31, 0x8FC96230), 0x01E02203, 0x5EE76897);
    RoundIs(t + 3, Working(0x5EE76897, 0x11793F6F, 0x3B6D0B79, 0xCE616779, 0xF0667E31), 0xE7CC3456, 0x63F7DAB7);
  }

  lemma {:induction false} Rounds76(t: nat)
    requires t == 76 && Words9() && At(t, Working(0x63F7DAB7, 0x5EE76897, 0xC45E4FDB, 0x3B6D0B79, 0xCE616779))
    ensures At(t + 4, Working(0x42541B35, 0x5738D5E1, 0x21834873, 0x681E6DF6, 0xD8FDF6AD))
  {
    hide W, At;
    RoundIs(t, Working(0x63F7DAB7, 0x5EE76897, 0xC45E4FDB, 0x3B6D0B79, 0xCE616779), 0xE6E60B69, 0xA079B7D9);
    RoundIs(t + 1, Working(0xA079B7D9, 0x63F7DAB7, 0xD7B9DA25, 0xC45E4FDB, 0x3B6D0B79), 0x00F60A00, 0x860D21CC);
    RoundIs(t + 2, Working(0x860D21CC, 0xA079B7D9, 0xD8FDF6AD, 0xD7B9DA25, 0xC45E4FDB), 0x5795EF4F, 0x5738D5E1);
    RoundIs(t + 3, Working(0x5738D5E1, 0x860D21CC, 0x681E6DF6, 0xD8FDF6AD, 0xD7B9DA25), 0x822E0879, 0x42541B35);
  }

  lemma {:induction false} WordBytesNext(w: Word, words: seq<Word>)
    ensures WordBytes([w] + words) ==
            [((w >> 24) & 0xFF) as bv8, ((w >> 16) & 0xFF) as bv8, ((w >> 8) & 0xFF) as bv8, (w & 0xFF) as bv8] + WordBytes(words)
  {
    assert ([w] + words)[1..] == words;
  }

  /** Its bytes, as the examples print them. */
  lemma {:induction false} DigestBytes()
    ensures WordBytes(DIGEST) == [0xA9, 0x99, 0x3E, 0x36, 0x47, 0x06, 0x81, 0x6A, 0xBA, 0x3E, 0x25, 0x71, 0x78, 0x50, 0xC2, 0x6C, 0x9C, 0xD0, 0xD8, 0x9D]
  {
    WordBytesNext(0x9CD0D89D, []);
    assert [0x9CD0D89D] + [] == [0x9CD0D89D];
    WordBytesNext(0x7850C26C, [0x9CD0D89D]);
    assert [0x7850C26C] + [0x9CD0D89D] == [0x7850C26C, 0x9CD0D89D];
    WordBytesNext(0xBA3E2571, [0x7850C26C, 0x9CD0D89D]);
    assert [0xBA3E2571] + [0x7850C26C, 0x9CD0D89D] == [0xBA3E2571, 0x7850C26C, 0x9CD0D89D];
    WordBytesNext(0x4706816A, [0xBA3E2571, 0x7850C26C, 0x9CD0D89D]);
    assert [0x4706816A] + [0xBA3E2571, 0x7850C26C, 0x9CD0D89D] == [0x4706816A, 0xBA3E2571, 0x7850C26C, 0x9CD0D89D];
    WordBytesNext(0xA9993E36, [0x4706816A, 0xBA3E2571, 0x7850C26C, 0x9CD0D89D]);
    assert [0xA9993E36] + [0x4706816A, 0xBA3E2571, 0x7850C26C, 0x9CD0D89D] == [0xA9993E36, 0x4706816A, 0xBA3E2571, 0x7850C26C, 0x9CD0D89D];
    assert WordBytes([]) == [];
    hide WordBytes;
  }

  lemma {:induction false} OneBlock()
    requires |PADDED| == BLOCK
    ensures HashBlocks(INITIAL, PADDED) == Compress(INITIAL, PADDED)
  {
    hide Compress;
    HashNext(INITIAL, [], PADDED);
    assert [] + PADDED == PADDED && HashBlocks(INITIAL, []) == INITIAL;
  }

  lemma {:induction false} CompressedIs()
    requires At(80, Working(0x42541B35, 0x5738D5E1, 0x21834873, 0x681E6DF6, 0xD8FDF6AD))
    ensures Compress(INITIAL, PADDED) == DIGEST
  {
    hide Rounds;
  }


  lemma {:induction false} StartsAt()
    ensures At(0, Working(0x67452301, 0xEFCDAB89, 0x98BADCFE, 0x10325476, 0xC3D2E1F0))
  {
    PaddedIs();
    FirstRound(INITIAL, PADDED);
    hide Rounds;
  }

  /** The digest of "abc". */
  lemma {:induction false} DigestOfAbc()
    ensures Digest(ABC) == DIGEST
    ensures WordBytes(Digest(ABC)) == [0xA9, 0x99, 0x3E, 0x36, 0x47, 0x06, 0x81, 0x6A, 0xBA, 0x3E, 0x25, 0x71, 0x78, 0x50, 0xC2, 0x6C, 0x9C, 0xD0, 0xD8, 0x9D]
  {
    DigestBytes();
    hide WordBytes;
    hide W, At;
    PaddedIs();
    FirstWordsAre();
    Words2Are();
    Words3Are();
    Words4Are();
    Words5Are();
    Words6Are();
    Words7Are();
    Words8Are();
    Words9Are();
    StartsAt();
    Rounds0(0);
    Rounds4(4);
    Rounds8(8);
    Rounds12(12);
    Rounds16(16);
    Rounds20(20);
    Rounds24(24);
    Rounds28(28);
    Rounds32(32);
    Rounds36(36);
    Rounds40(40);
    Rounds44(44);
    Rounds48(48);
    Rounds52(52);
    Rounds56(56);
    Rounds60(60);
    Rounds64(64);
    Rounds68(68);
    Rounds72(72);
    Rounds76(76);
    OneBlock();
    CompressedIs();
    hide Compress;
  }
}
